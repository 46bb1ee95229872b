# win-wifi: a Dafny model of the `netsh wlan` wrapper

win-wifi drives the Windows `netsh wlan` command-line tool from Python. It
builds command lines from fixed templates and runs them. It turns what the
tool prints into results or `WiFiError`s, and it parses three of the tool's
reports, of which this model covers two:

- the interface report (`show interface`), parsed into a key/value table;
- the profile list (`show profile`), parsed into profile names;
- the network list (`show networks`), which is not modelled (see the
  `_parse_networks` line under "Left out").

This project models that text logic over `seq<char>`, along with the
stateful parts around it:

- the `Profile` object and the XML path it remembers;
- the command sequences of `connect`, `add_profile`, `delete_profile` and
  `disconnect`.

The tool itself is an oracle. Given the commands issued so far and the next
command, it returns that command's standard output and standard error.

Files and modules:

| file | module | contents |
|---|---|---|
| `outcomes.dfy` | `Outcomes` | `Option`, the raised exceptions, `Result` |
| `pytext.dfy` | `PyText` | the Python string operations the code uses: `in`, `split`, `join`, `replace`, `strip`, `lower` |
| `commands.dfy` | `Commands` | the command templates and `str.format` filling |
| `calls.dfy` | `Calls` | how `_call` classifies stdout/stderr |
| `interfaces.dfy` | `Interfaces` | `_parse_interfaces`, the insertion-ordered dict it builds |
| `profiles.dfy` | `ProfileList` | `_parse_profiles` |
| `utils.dfy` | `Utils` | `_flatten_kwargs` |
| `facade.dfy` | `WinWifi` | `Interface`, `Profile`, `Wifi` and its command sequences |

Notes on how the model is built:

- The loop of `_parse_interfaces` is an imperative method over a
  functional specification. `Interfaces.ReadRows` runs the loop and
  `Interfaces.ReadRow` runs one pass of its body. They are proved equal to
  `FoldRows`/`Step`, and the lemmas about the parse are stated on those
  functions.
- A Python dict is a `Dict`: its keys in insertion order plus a map. So
  "the later key wins" and the order of the final comprehension can be
  stated.
- `_parse_profiles` uses a regular expression. It is modelled twice:
  - `FindAll` follows how `re.findall` scans for ` : (.*\n)`;
  - `ProfileLines` is a plain line rule.

  `ProfileList.FindAllByLines` proves the two agree.

## Model

| member | source | states |
|---|---|---|
| `Commands.FillCompose` | winwifi/wifi.py:14-22 | Formatting a template built by nested `format` equals formatting the outer template with the inner one filled in |
| `Commands.Unfill` | winwifi/wifi.py:14-22 | Recovering the argument from a command line gives an argument that formats back to that exact line |
| `Commands.UnfillFill` | winwifi/wifi.py:14-22 | Formatting an argument into a template and reading it back returns the argument |
| `Commands.FillInjective` | winwifi/wifi.py:14-22 | Two arguments give the same command line exactly when they are equal |
| `Commands.FixedCommandTexts` | winwifi/wifi.py:14-19 | The fixed commands are `netsh wlan show networks`, `netsh wlan show interface` and `netsh wlan disconnect` |
| `Commands.ShowProfileText` | winwifi/wifi.py:17 | The profile listing command is `netsh wlan show profile "<name>"`, unescaped |
| `Commands.ConnectText` | winwifi/wifi.py:20 | The connect command is `netsh wlan connect "<name>"`, unescaped |
| `Commands.AddProfileText` | winwifi/wifi.py:21 | The add command is `netsh wlan add profile filename="<path>"`, unescaped |
| `Commands.DelProfileText` | winwifi/wifi.py:22 | The delete command is `netsh wlan delete profile "<name>"`, unescaped |
| `Calls.ReportsError` | winwifi/wifi.py:136 | The in-band error test holds exactly when `error` occurs in the lower-cased stdout and stdout contains a colon |
| `Calls.Classify` | winwifi/wifi.py:136-140 | `_call` returns stdout unchanged exactly when stdout is no in-band error report and stderr is empty. An in-band report raises `WiFiError(stdout)` first. Otherwise a non-empty stderr raises `WiFiError(stderr)` |
| `Calls.ReportsErrorMeaning` | winwifi/wifi.py:136 | The in-band test holds exactly when stdout contains `error` in some letter case and also contains a colon |
| `Calls.ReportsErrorIgnoresCase` | winwifi/wifi.py:136 | The in-band test gives the same answer for stdout and its lower-cased form |
| `Calls.UnknownCommandRaises` | winwifi/wifi.py:138-139 | Empty stdout with a shell error on stderr raises `WiFiError` carrying the stderr text |
| `Calls.ErrorWithoutColonIsOutput` | winwifi/wifi.py:136-140 | `Error` without a colon is returned as output |
| `Calls.UpperCaseErrorRaises` | winwifi/wifi.py:136-137 | `ERROR:` raises, so case does not matter |
| `PyText.IndexOf` | winwifi/wifi.py:136 | The leftmost position of a pattern, or none when the pattern occurs nowhere (Python's `in`/`find`) |
| `PyText.Contains` | winwifi/wifi.py:136 | Python's `pat in s`: true exactly when `pat` occurs at some position of `s` |
| `PyText.Split` | winwifi/wifi.py:163-164 | Python's `s.split(sep)`: the pieces between the leftmost non-overlapping occurrences of `sep`; there is always at least one piece |
| `PyText.ReplaceWithoutTarget` | winwifi/wifi.py:163 | A text in which `target` does not occur comes back from `replace` unchanged (a report without `(Mbps)`) |
| `PyText.JoinSnoc` | winwifi/utils.py:9 | `sep.join` of one more part is the join of the others, then `sep`, then that part |
| `PyText.SplitJoin` | winwifi/utils.py:9 | Splitting a join on a one-character separator that no part contains gives the parts back |
| `PyText.JoinSplit` | winwifi/wifi.py:163 | Joining the pieces of `split(sep)` with `sep` gives the text back |
| `PyText.SplitHasSecondPiece` | winwifi/wifi.py:163 | `split(sep)` yields a second piece exactly when `sep` occurs |
| `PyText.SplitPiecesAvoidSeparator` | winwifi/wifi.py:163-164 | No piece of `split(sep)` contains `sep` |
| `PyText.Strip` | winwifi/wifi.py:164 | Neither end of a stripped text is white space |
| `PyText.StripTrailingSpace` | winwifi/wifi.py:241 | A trailing white-space character, such as the line feed a match ends in, does not change what `strip` keeps |
| `PyText.Lower` | winwifi/wifi.py:136 | Lower-casing maps each character, keeping the length |
| `PyText.ReplaceCharwise` | winwifi/wifi.py:171 | Replacing one character with another substitutes position by position, keeping the length |
| `Interfaces.Put` | winwifi/wifi.py:168 | `d[k] = v` sets the value; a new key goes to the end of the insertion order and an existing key keeps its place |
| `Interfaces.PutExact` | winwifi/wifi.py:168 | Setting a key keeps the dict's order listing each key exactly once |
| `Interfaces.Fields` | winwifi/wifi.py:164 | A line's fields are its `" : "` pieces, each stripped. There is a single field exactly when the line has no separator, and that field is the stripped line |
| `Interfaces.Rows` | winwifi/wifi.py:163-164 | One row per `\r\n` line; every row has a field and every field is stripped |
| `Interfaces.Step` | winwifi/wifi.py:165-170 | One pass of the loop keeps the dict well formed; the only exception it raises is `KeyError` |
| `Interfaces.FoldRows` | winwifi/wifi.py:165-170 | The whole loop keeps the dict well formed; the only exception it raises is `KeyError` |
| `Interfaces.FoldStep` | winwifi/wifi.py:165-170 | The loop from row `i` is one pass over row `i`, then the loop from row `i + 1` |
| `Interfaces.FoldRowsExact` | winwifi/wifi.py:162-170 | The loop keeps the dict's shape: every key listed exactly once in insertion order |
| `Interfaces.NormKey` | winwifi/wifi.py:171 | A normalised key has the raw key's length and contains no space and no capital letter |
| `Interfaces.NormKeyIsReplaceLower` | winwifi/wifi.py:171 | The character-wise normalisation equals the source's `k.replace(" ", "_").lower()` |
| `Interfaces.NormalizePrefix` | winwifi/wifi.py:171 | Normalising the first `n` keys keeps the dict well formed |
| `Interfaces.Normalize` | winwifi/wifi.py:171 | The key-normalising comprehension keeps the dict well formed |
| `Interfaces.RowsFields` | winwifi/wifi.py:162-172 | A parse that succeeds gives a well-formed dict |
| `Interfaces.InterfaceFields` | winwifi/wifi.py:153-172 | `_parse_interfaces` either raises or returns a well-formed dict |
| `Interfaces.ParseInterfaces` | winwifi/wifi.py:153-172 | The method splits as the source does and returns exactly `InterfaceFields(report)`, raised exceptions included |
| `Interfaces.ReadRows` | winwifi/wifi.py:162-172 | The loop over the rows, updating the dict in place, returns exactly the fold over the rows followed by normalisation, or its `KeyError` |
| `Interfaces.ReadRow` | winwifi/wifi.py:165-170 | One pass of the loop body, with its re-stripping, equals `Step`: two fields set a key, one field extends the previous row's key, wider rows do nothing |
| `Interfaces.IndexErrorIffNoSecondBlock` | winwifi/wifi.py:163 | The parse raises `IndexError` exactly when, after every `(Mbps)` is removed, the report has no `\r\n\r\n` |
| `Interfaces.LeadingContinuationFails` | winwifi/wifi.py:169-170 | A continuation line first in the block always raises `KeyError`, keyed by the last row's first field (`result[-1][0]`) |
| `Interfaces.WideRowSkipped` | winwifi/wifi.py:166-170 | A line of three or more fields contributes nothing |
| `Interfaces.ContinuationJoins` | winwifi/wifi.py:166-170 | A key/value line followed by a continuation line sets the key to the two texts joined with `", "` |
| `Interfaces.KeysAreAssignedKeys` | winwifi/wifi.py:165-170 | The parsed dict's keys are exactly the first fields of the two-field lines |
| `Interfaces.UntouchedKeyKept` | winwifi/wifi.py:165-170 | A key that no later line sets or extends keeps its value |
| `Interfaces.LastAssignmentWins` | winwifi/wifi.py:166-168 | A key ends with the value of its last two-field line when no later line extends it: a later equal key overwrites |
| `Interfaces.NormalizedKeys` | winwifi/wifi.py:171 | A key is in the output exactly when it is the normalisation of some raw key |
| `Interfaces.LaterKeyWins` | winwifi/wifi.py:171 | When raw keys collide after normalisation, the later one in insertion order gives the value; values pass through unchanged |
| `Interfaces.FoldFailsAtBlocked` | winwifi/wifi.py:165-170 | From any row on, with the dict holding the keys set so far, the loop raises exactly when a later continuation row's previous key has not been set by an earlier key/value row, and then raises `KeyError` for the first such row's previous key |
| `Interfaces.KeyErrorIffBlocked` | winwifi/wifi.py:165-170 | Over the whole block: the parse raises exactly when some continuation line follows a line whose key no earlier key/value line set (row 0 looks at `result[-1]`), and the `KeyError` names the first such line's predecessor key |
| `ProfileList.FindAll` | winwifi/wifi.py:240 | Every match of `re.findall(" : (.*\n)")` ends in a line feed and holds no other line feed: `.` never crosses a line |
| `ProfileList.ProfileLines` | winwifi/wifi.py:239-241 | Every name the line rule yields is already stripped: no white space at either end |
| `ProfileList.ParseProfiles` | winwifi/wifi.py:239-241 | `_parse_profiles` equals the line rule: for each line ended by `\n` that contains `" : "`, in order, the stripped text after its first `" : "` |
| `ProfileList.FindAllByLines` | winwifi/wifi.py:240-241 | The `re.findall` scan, stripped, equals reading the report line by line |
| `ProfileList.FindAllOneLine` | winwifi/wifi.py:240 | Over one line and the text after it, the scan yields that line's capture, then the scan of the rest |
| `ProfileList.FindAllWithoutNewline` | winwifi/wifi.py:240 | Text without a line feed holds no match |
| `ProfileList.CaptureStripsToValue` | winwifi/wifi.py:241 | Stripping a capture removes its line feed, giving the line's value |
| `ProfileList.ProfileLine` | winwifi/wifi.py:239-241 | A line `tag : value` whose tag has no colon names the profile `value`, stripped |
| `ProfileList.PlainLine` | winwifi/wifi.py:239-241 | A line without `" : "` names no profile |
| `ProfileList.UnterminatedLine` | winwifi/wifi.py:240 | Text after the last line feed names no profile |
| `Utils.FlattenKwargs` | winwifi/utils.py:8-9 | An empty mapping flattens to `""`; a single pair `(k, v)` flattens to `k + " " + v` |
| `Utils.FlattenSnoc` | winwifi/utils.py:9 | Flattening with one more pair appends `" " + k + " " + v` to the flattening of the others |
| `Utils.ItemsSnoc` | winwifi/utils.py:9 | The items follow insertion order: one more pair appends its `k v` item |
| `Utils.FlattenTwoEntries` | tests/test_utils.py:5-6 | `{'key1': 'val1', 'key2': 'val2'}` flattens to `key1 val1 key2 val2` |
| `Utils.FlattenJoinsWords` | winwifi/utils.py:9 | The result is keys and values alternating in insertion order, separated by single spaces |
| `Utils.FlattenSplitsIntoWords` | winwifi/utils.py:9 | When no key or value contains a space, splitting the result on spaces gives back the keys and values in order |
| `WinWifi.MakeInterface` | winwifi/wifi.py:35-54 | `Interface(**fields)` raises `TypeError` exactly when a parsed field is named `self`, which collides with the constructor's own parameter. Otherwise the attributes are the seventeen known ones plus the parsed fields; parsed fields take their parsed values and known attributes not parsed are `None` |
| `WinWifi.IsConnected` | winwifi/wifi.py:149-151 | The interface is connected exactly when the report had a `state` field equal to `connected`; without one the attribute is `None`, which is not connected |
| `WinWifi.Profile.constructor` | winwifi/wifi.py:67-76 | The name is the given name, or the ssid when none is given. The other settings are kept. No XML path is recorded |
| `WinWifi.Profile.ToXml` | winwifi/wifi.py:78-93 | Returns `<dir>\<filename or name>.xml` and records it as the profile's path |
| `WinWifi.Profile.ClearXml` | winwifi/wifi.py:95-97 | Forgets the recorded path; with no path recorded it raises `TypeError` |
| `WinWifi.Wifi.Call` | winwifi/wifi.py:116-140 | Appends the command to the log and returns or raises what `Classify` gives for the tool's reply |
| `WinWifi.Wifi.GetInterface` | winwifi/wifi.py:103-114 | Issues `show interface` only; the result is the parsed first interface, or the exception raised: the call's `WiFiError`, the parse's `IndexError`/`KeyError`, or `TypeError` for a field named `self` |
| `WinWifi.Wifi.Connected` | winwifi/wifi.py:142-151 | Issues `show interface` only; reports whether the state attribute is `connected`, or raises what the interface query raises |
| `WinWifi.Wifi.Profiles` | winwifi/wifi.py:174-178 | Issues `show profile ""` only; returns the parsed profile names |
| `WinWifi.Wifi.Disconnect` | winwifi/wifi.py:194-196 | Issues `netsh wlan disconnect` only |
| `WinWifi.Wifi.AddProfile` | winwifi/wifi.py:213-225 | A string issues the add command with that path. A profile first records its XML path, then the add command uses it; the path is cleared only if the command raised nothing. Any other value issues nothing |
| `WinWifi.Wifi.Connect` | winwifi/wifi.py:198-211 | A string issues exactly the connect command for it. A profile issues the add command and, only if that succeeded, connect with the profile's ssid (not its name). Any other value raises `TypeError` and issues nothing |
| `WinWifi.Wifi.DeleteProfile` | winwifi/wifi.py:227-237 | Always lists the profiles first. The delete command for the name is issued only if the name is in that list. A name not in the list, or a value of another type, issues nothing more and raises nothing |

## Left out

- Running the process (`subprocess.Popen`, the shell), logging, and decoding
  bytes as UTF-8 are not modelled. The tool is an oracle returning text, one
  character per byte. Output the classifier accepts is returned unchanged.
- `PyText.Lower`: lower-cases ASCII letters only. This is exactly
  `bytes.lower()`, which is what the error test uses. The key normalisation
  of `_parse_interfaces` calls `str.lower()`, which also lower-cases
  non-ASCII letters; keys with such letters are not modelled faithfully.
- `to_xml` is modelled without its file I/O:
  - reading the template file, formatting the XML, and writing it;
  - the errors that I/O can raise.
  The path is `<dir>\<name>.xml`, where `dir` is the package directory,
  taken as a parameter. `os.path.realpath` and `os.path.join` subtleties
  are not modelled.
- `ClearXml` models `os.remove` only as far as `os.remove(None)` raising
  `TypeError`. Errors from removing a missing file are not modelled.
- `Profile` attributes other than the path are immutable (`const`) in the
  model. The source never reassigns them, though Python would allow it.
- `Utils.FlattenKwargs`: keys and values are strings. Python's `%s` would
  also format other values.
- `_parse_networks` and `networks()`: not modelled. Their meaning rests on
  regular-expression backtracking across lines, under IGNORECASE, which
  has no line grammar.
- The `Network` record is not modelled; only `_parse_networks` builds it.
- `delete_profile` with a value of neither type never matches a listed
  name. A custom object that compares equal to a string is not modelled.
- The repository's top-level `wifi.py`, `winwifi/const.py`, `setup.py` and
  the tests that need a live `netsh` are not part of this model.
  `tests/test_utils.py` is modelled by `Utils.FlattenTwoEntries`.
