/** The `netsh wlan` command templates of winwifi/wifi.py, and the separator
    of its reports. A template with
    one `{}` field is a prefix and a suffix around that field; `str.format`
    fills the field with the argument verbatim, without quoting or escaping. */
module Commands {
  import opened Outcomes

  /** The text `prefix + "{}" + suffix`. */
  datatype Template = Template(prefix: string, suffix: string)

  /** `template.format(arg)` for a template with a single `{}` field. */
  function Fill(t: Template, arg: string): string {
    t.prefix + arg + t.suffix
  }

  /** `t.format(u)` where `u` is itself a template: the field of `u` becomes
      the field of the result. */
  function Compose(t: Template, u: Template): Template {
    Template(t.prefix + u.prefix, u.suffix + t.suffix)
  }

  /** Filling a composed template is filling the inner one, then the outer one. */
  lemma FillCompose(t: Template, u: Template, arg: string)
    ensures Fill(Compose(t, u), arg) == Fill(t, Fill(u, arg))
  {
  }

  /** The argument a filled command was built from, when it has the
      template's shape. */
  function Unfill(t: Template, cmd: string): (r: Option<string>)
    ensures r.Some? ==> Fill(t, r.value) == cmd
  {
    var p, s := |t.prefix|, |t.suffix|;
    if p + s <= |cmd| && cmd[..p] == t.prefix && cmd[|cmd| - s..] == t.suffix
    then
      assert cmd == cmd[..p] + cmd[p..|cmd| - s] + cmd[|cmd| - s..];
      Some(cmd[p..|cmd| - s])
    else None
  }

  /** Filling then reading the field back gives the argument: the command
      text determines the name or path it was built from. */
  lemma UnfillFill(t: Template, arg: string)
    ensures Unfill(t, Fill(t, arg)) == Some(arg)
  {
    var cmd := Fill(t, arg);
    assert cmd[..|t.prefix|] == t.prefix;
    assert cmd[|cmd| - |t.suffix|..] == t.suffix;
    assert cmd[|t.prefix|..|cmd| - |t.suffix|] == arg;
  }

  lemma FillInjective(t: Template, a: string, b: string)
    ensures Fill(t, a) == Fill(t, b) <==> a == b
  {
    UnfillFill(t, a);
    UnfillFill(t, b);
  }

  /** What separates a label from its value on a line of a `netsh wlan` report. */
  const FieldSep := " : "

  /** Every command: `netsh wlan ` followed by the field. */
  const NetshWlan := Template("netsh wlan ", "")
  /** The `show` commands, built by filling the base template with a template. */
  const Show := Compose(NetshWlan, Template("show ", ""))
  /** Listing the visible networks. */
  const ShowNetworks := Fill(Show, "networks")
  /** Showing a profile: the field is wrapped in double quotes. */
  const ShowProfile := Compose(Show, Template("profile \"", "\""))
  /** Showing the wireless interfaces. */
  const ShowInterfaces := Fill(Show, "interface")
  /** Disconnecting from the current network. */
  const Disconnect := Fill(NetshWlan, "disconnect")
  /** Connecting with a stored profile: its name in double quotes. */
  const Connect := Compose(NetshWlan, Template("connect \"", "\""))
  /** Storing a profile from an XML file: its path in double quotes. */
  const AddProfile := Compose(NetshWlan, Template("add profile filename=\"", "\""))
  /** Deleting a stored profile: its name in double quotes. */
  const DelProfile := Compose(NetshWlan, Template("delete profile \"", "\""))

  /** The literal command lines of the fixed commands. */
  lemma FixedCommandTexts()
    ensures ShowNetworks == "netsh wlan show networks"
    ensures ShowInterfaces == "netsh wlan show interface"
    ensures Disconnect == "netsh wlan disconnect"
  {
  }

  // The literal command lines of the commands that wrap a name or path in
  // double quotes; nothing inside the quotes is escaped.

  lemma ShowProfileText(name: string)
    ensures Fill(ShowProfile, name) == "netsh wlan show profile \"" + name + "\""
  {
    assert ShowProfile.prefix == "netsh wlan show profile \"";
    assert ShowProfile.suffix == "\"";
  }

  lemma ConnectText(name: string)
    ensures Fill(Connect, name) == "netsh wlan connect \"" + name + "\""
  {
    assert Connect.prefix == "netsh wlan connect \"";
    assert Connect.suffix == "\"";
  }

  lemma AddProfileText(path: string)
    ensures Fill(AddProfile, path) == "netsh wlan add profile filename=\"" + path + "\""
  {
    assert AddProfile.prefix == "netsh wlan add profile filename=\"";
    assert AddProfile.suffix == "\"";
  }

  lemma DelProfileText(name: string)
    ensures Fill(DelProfile, name) == "netsh wlan delete profile \"" + name + "\""
  {
    assert DelProfile.prefix == "netsh wlan delete profile \"";
    assert DelProfile.suffix == "\"";
  }
}
