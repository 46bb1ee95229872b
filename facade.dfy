/** The `Wifi` facade over `netsh wlan`: the `Interface` record, the
    `Profile` object with its XML-path state, and the command sequences of
    `connect`, `add_profile`, `delete_profile` and `disconnect`.
    The external tool is an oracle: given the commands issued so far and
    the next command, it yields what that command prints. */
module WinWifi {
  import opened Outcomes
  import opened PyText
  import opened Commands
  import opened Calls
  import opened Interfaces
  import opened ProfileList

  /** The attributes every `Interface` has, `None` until the report sets them. */
  const InterfaceAttributes: set<string> := {
    "name", "description", "guid", "physical_address", "state", "ssid",
    "bssid", "network_type", "radio_type", "authentication", "cipher",
    "connection_mode", "channel", "receive_rate", "transmit_rate", "signal",
    "profile"
  }

  /** An `Interface` object as its attribute table. */
  type Interface = map<string, Option<string>>

  /** `Interface(**fields)`: a field named `self` collides with the
      constructor's own first parameter, and the call raises `TypeError`.
      Otherwise every known attribute starts as `None`, then every parsed
      field is set, including names outside the known list. */
  function MakeInterface(fields: Dict): (r: Result<Interface>)
    ensures r.Err? <==> "self" in fields.entries
    ensures r.Err? ==> r.error.TypeError?
    ensures r.Ok? ==> forall k :: k in r.value <==> k in InterfaceAttributes || k in fields.entries
    ensures r.Ok? ==> forall k :: k in fields.entries ==> r.value[k] == Some(fields.entries[k])
    ensures r.Ok? ==> forall k :: k in InterfaceAttributes && k !in fields.entries ==> r.value[k] == None
  {
    if "self" in fields.entries then
      Err(TypeError("__init__() got multiple values for argument 'self'"))
    else
      Ok(map k | k in InterfaceAttributes + fields.entries.Keys ::
           if k in fields.entries then Some(fields.entries[k]) else None)
  }

  /** `connected` for an interface built from `fields`: it holds exactly
      when the report had a `State` field whose value is `connected`; a
      report without one leaves the attribute `None`, which is not
      connected. */
  function IsConnected(fields: Dict): (b: bool)
    requires "self" !in fields.entries
    ensures b <==> "state" in fields.entries && fields.entries["state"] == "connected"
  {
    MakeInterface(fields).value["state"] == Some("connected")
  }

  /** The path `to_xml` writes to: `<dir>\<filename>.xml`. */
  function XmlProfile(dir: string): Template {
    Template(dir + "\\", ".xml")
  }

  /** Connection profile: its settings and the path of the XML file
      currently written for it, if any. */
  class Profile {
    const ssid: string
    const name: string
    const authentication: string
    const encryption: string
    const password: string
    var path: Option<string>

    /** The name defaults to the ssid; no XML file has been written yet. */
    constructor (ssid: string, name: Option<string> := None, authentication: string := "",
                 encryption: string := "", password: string := "")
      ensures this.ssid == ssid && this.name == name.GetOr(ssid)
      ensures name.Some? ==> this.name == name.value
      ensures this.authentication == authentication && this.encryption == encryption
      ensures this.password == password
      ensures path == None
    {
      this.ssid := ssid;
      this.name := name.GetOr(ssid);
      this.authentication := authentication;
      this.encryption := encryption;
      this.password := password;
      path := None;
    }

    /** `to_xml`: records and returns the path of the XML file, named after
        `filename` or else after the profile name, in directory `dir`. */
    method ToXml(dir: string, filename: Option<string> := None) returns (p: string)
      modifies this
      ensures p == Fill(XmlProfile(dir), filename.GetOr(name))
      ensures path == Some(p)
    {
      p := Fill(XmlProfile(dir), filename.GetOr(name));
      path := Some(p);
    }

    /** `_clear_xml`: forgets the path; with no path recorded, removing
        `None` raises `TypeError` before anything changes. */
    method ClearXml() returns (r: Result<()>)
      modifies this
      ensures old(path).None? ==> r.Err? && r.error.TypeError? && path == None
      ensures old(path).Some? ==> r == Ok(()) && path == None
    {
      if path.None? {
        return Err(TypeError("remove: path should be string, bytes or os.PathLike, not NoneType"));
      }
      path := None;
      r := Ok(());
    }
  }

  /** What the external tool prints for one command. */
  datatype Reply = Reply(stdout: string, stderr: string)

  /** The argument of `connect`, `add_profile` and `delete_profile`: a `str`,
      a `Profile`, or a value of any other type. */
  datatype ProfileArg = ByName(text: string) | ByProfile(profile: Profile) | Other

  /** The outcome of an operation whose value is dropped (Python's `None`). */
  function Discard<T>(r: Result<T>): Result<()>
  {
    match r
    case Ok(_) => Ok(())
    case Err(e) => Err(e)
  }

  /** The interface a `show interface` outcome describes. */
  function InterfaceOf(out: Result<string>): Result<Interface> {
    match out
    case Err(e) => Err(e)
    case Ok(report) =>
      match InterfaceFields(report)
      case Err(e) => Err(e)
      case Ok(fields) => MakeInterface(fields)
  }

  /** The profile names a `show profile` outcome lists. */
  function ProfilesOf(out: Result<string>): Result<seq<string>> {
    match out
    case Err(e) => Err(e)
    case Ok(report) => Ok(ParseProfiles(report))
  }

  /** The name `delete_profile` looks up: a string as given, a profile's
      name; any other value matches no listed name. */
  function TargetName(arg: ProfileArg): Option<string> {
    match arg
    case ByName(text) => Some(text)
    case ByProfile(p) => Some(p.name)
    case Other => None
  }

  /** The command that lists the stored profiles. */
  const ListProfiles := Fill(ShowProfile, "")

  /** The wrapper: the commands it has issued, in order. */
  class Wifi {
    /** The external tool. */
    const netsh: (seq<string>, string) -> Reply
    /** The package directory the XML profiles are written to. */
    const packageDir: string
    var log: seq<string>

    constructor (netsh: (seq<string>, string) -> Reply, packageDir: string)
      ensures this.netsh == netsh && this.packageDir == packageDir && log == []
    {
      this.netsh := netsh;
      this.packageDir := packageDir;
      log := [];
    }

    /** What `_call` returns or raises for `cmd` after the commands `history`. */
    function Outcome(history: seq<string>, cmd: string): Result<string> {
      var reply := netsh(history, cmd);
      Classify(reply.stdout, reply.stderr)
    }

    /** `_call`: issue `cmd` and classify what it printed. */
    method Call(cmd: string) returns (r: Result<string>)
      modifies this
      ensures log == old(log) + [cmd]
      ensures r == Outcome(old(log), cmd)
    {
      var reply := netsh(log, cmd);
      r := Classify(reply.stdout, reply.stderr);
      log := log + [cmd];
    }

    /** `interface`: the first interface of `show interface`. */
    method GetInterface() returns (r: Result<Interface>)
      modifies this
      ensures log == old(log) + [ShowInterfaces]
      ensures r == InterfaceOf(Outcome(old(log), ShowInterfaces))
    {
      var out := Call(ShowInterfaces);
      if out.Err? {
        return Err(out.error);
      }
      var fields := ParseInterfaces(out.value);
      if fields.Err? {
        return Err(fields.error);
      }
      r := MakeInterface(fields.value);
    }

    /** `connected`: whether the interface's state is `connected`. */
    method Connected() returns (r: Result<bool>)
      modifies this
      ensures log == old(log) + [ShowInterfaces]
      ensures var out := Outcome(old(log), ShowInterfaces);
        match InterfaceOf(out)
        case Err(e) => r == Err(e)
        case Ok(iface) =>
          r.Ok? && (r.value <==> iface["state"] == Some("connected"))
          && InterfaceFields(out.value).Ok? && "self" !in InterfaceFields(out.value).value.entries
          && r.value == IsConnected(InterfaceFields(out.value).value)
    {
      var iface := GetInterface();
      if iface.Err? {
        return Err(iface.error);
      }
      r := Ok(iface.value["state"] == Some("connected"));
    }

    /** `profiles`: the names `show profile ""` lists. */
    method Profiles() returns (r: Result<seq<string>>)
      modifies this
      ensures log == old(log) + [ListProfiles]
      ensures r == ProfilesOf(Outcome(old(log), ListProfiles))
    {
      var out := Call(ListProfiles);
      if out.Err? {
        return Err(out.error);
      }
      r := Ok(ParseProfiles(out.value));
    }

    /** `disconnect`. */
    method Disconnect() returns (r: Result<()>)
      modifies this
      ensures log == old(log) + [Commands.Disconnect]
      ensures r == Discard(Outcome(old(log), Commands.Disconnect))
    {
      var out := Call(Commands.Disconnect);
      r := Discard(out);
    }

    /** `add_profile`: a string is the path of an XML file; a profile is
        first written to its XML file, whose path is forgotten again only
        when the tool accepted it; any other value is ignored. */
    method AddProfile(arg: ProfileArg) returns (r: Result<()>)
      modifies this, if arg.ByProfile? then {arg.profile} else {}
      ensures arg.ByName? ==>
        var cmd := Fill(Commands.AddProfile, arg.text);
        log == old(log) + [cmd] && r == Discard(Outcome(old(log), cmd))
      ensures arg.ByProfile? ==>
        var file := Fill(XmlProfile(packageDir), arg.profile.name);
        var cmd := Fill(Commands.AddProfile, file);
        log == old(log) + [cmd] && r == Discard(Outcome(old(log), cmd))
        && arg.profile.path == (if r.Ok? then None else Some(file))
      ensures arg.Other? ==> log == old(log) && r == Ok(())
    {
      match arg
      case ByName(text) =>
        var out := Call(Fill(Commands.AddProfile, text));
        r := Discard(out);
      case ByProfile(p) =>
        var file := p.ToXml(packageDir);
        var out := Call(Fill(Commands.AddProfile, file));
        if out.Err? {
          return Err(out.error);
        }
        r := p.ClearXml();
      case Other =>
        r := Ok(());
    }

    /** `connect`: a string is the name of a stored profile; a profile is
        added first and then joined by its ssid, and only if adding it
        raised nothing; any other value raises `TypeError` and issues nothing. */
    method Connect(arg: ProfileArg) returns (r: Result<()>)
      modifies this, if arg.ByProfile? then {arg.profile} else {}
      ensures arg.ByName? ==>
        var cmd := Fill(Commands.Connect, arg.text);
        log == old(log) + [cmd] && r == Discard(Outcome(old(log), cmd))
      ensures arg.ByProfile? ==>
        var file := Fill(XmlProfile(packageDir), arg.profile.name);
        var add := Fill(Commands.AddProfile, file);
        var join := Fill(Commands.Connect, arg.profile.ssid);
        if Outcome(old(log), add).Ok? then
          log == old(log) + [add, join] && arg.profile.path == None
          && r == Discard(Outcome(old(log) + [add], join))
        else
          log == old(log) + [add] && arg.profile.path == Some(file)
          && r == Discard(Outcome(old(log), add))
      ensures arg.Other? ==> log == old(log) && r == Err(TypeError("profile must be Profile or str"))
    {
      match arg
      case ByName(text) =>
        var out := Call(Fill(Commands.Connect, text));
        r := Discard(out);
      case ByProfile(p) =>
        var added := AddProfile(arg);
        if added.Err? {
          return added;
        }
        var out := Call(Fill(Commands.Connect, p.ssid));
        r := Discard(out);
      case Other =>
        r := Err(TypeError("profile must be Profile or str"));
    }

    /** `delete_profile`: the stored profiles are always listed first; the
        delete command is issued only for a name on that list, and a name
        not on it is no error. */
    method DeleteProfile(arg: ProfileArg) returns (r: Result<()>)
      modifies this
      ensures var listed := ProfilesOf(Outcome(old(log), ListProfiles));
        var target := TargetName(arg);
        if listed.Err? then
          log == old(log) + [ListProfiles] && r == Err(listed.error)
        else if target.Some? && target.value in listed.value then
          var cmd := Fill(DelProfile, target.value);
          log == old(log) + [ListProfiles, cmd] && r == Discard(Outcome(old(log) + [ListProfiles], cmd))
        else
          log == old(log) + [ListProfiles] && r == Ok(())
    {
      var target := TargetName(arg);
      var listed := Profiles();
      if listed.Err? {
        return Err(listed.error);
      }
      if target.Some? && target.value in listed.value {
        var out := Call(Fill(DelProfile, target.value));
        r := Discard(out);
      } else {
        r := Ok(());
      }
    }
  }
}
