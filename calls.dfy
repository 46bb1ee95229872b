/** How `Wifi._call` (winwifi/wifi.py) turns what the external command
    wrote into a result. Running the command is not part of this module:
    its standard output and standard error arrive as text, one character
    per byte. */
module Calls {
  import opened Outcomes
  import opened PyText

  /** `b"error" in output.lower() and b":" in output`: the tool's in-band
      error report. */
  function ReportsError(stdout: string): (b: bool)
    ensures b <==> Occurs(Lower(stdout), "error") && ':' in stdout
  {
    Contains(Lower(stdout), "error") && ':' in stdout
  }

  /** "error" in any mix of upper and lower case stands at index `i`. */
  ghost predicate ErrorWordAt(s: string, i: int) {
    0 <= i && i + 5 <= |s| && forall k :: 0 <= k < 5 ==> LowerChar(s[i + k]) == "error"[k]
  }

  /** The outcome of `_call`: the in-band error report is checked first,
      then the error stream; otherwise the output text is returned unchanged. */
  function Classify(stdout: string, stderr: string): (r: Result<string>)
    ensures r.Ok? <==> !ReportsError(stdout) && stderr == []
    ensures r.Ok? ==> r.value == stdout
    ensures ReportsError(stdout) ==> r == Err(WiFiError(stdout))
    ensures !ReportsError(stdout) && stderr != [] ==> r == Err(WiFiError(stderr))
  {
    if ReportsError(stdout) then Err(WiFiError(stdout))
    else if stderr != [] then Err(WiFiError(stderr))
    else Ok(stdout)
  }

  /** The in-band test holds exactly when the output holds "error" in some
      letter case and also a colon. */
  lemma ReportsErrorMeaning(s: string)
    ensures ReportsError(s) <==> (exists i :: ErrorWordAt(s, i)) && (exists i :: 0 <= i < |s| && s[i] == ':')
  {
    var low := Lower(s);
    ContainsMeansOccurs(low, "error");
    forall i | 0 <= i ensures OccursAt(low, "error", i) <==> ErrorWordAt(s, i) {
      if i + 5 <= |s| {
        if OccursAt(low, "error", i) {
          forall k | 0 <= k < 5 ensures LowerChar(s[i + k]) == "error"[k] {
            assert low[i..i + 5][k] == low[i + k];
          }
        }
        if ErrorWordAt(s, i) {
          assert low[i..i + 5] == "error";
        }
      }
    }
    if ':' in s {
      var i :| 0 <= i < |s| && s[i] == ':';
    }
  }

  /** The in-band test ignores letter case. */
  lemma ReportsErrorIgnoresCase(s: string)
    ensures ReportsError(Lower(s)) == ReportsError(s)
  {
    assert Lower(Lower(s)) == Lower(s);
    assert (':' in Lower(s)) == (':' in s) by {
      if ':' in s {
        var i :| 0 <= i < |s| && s[i] == ':';
        assert Lower(s)[i] == ':';
      }
      if ':' in Lower(s) {
        var i :| 0 <= i < |s| && Lower(s)[i] == ':';
        assert s[i] == ':';
      }
    }
  }

  /** A failing shell command reports only on its error stream, and that raises. */
  lemma UnknownCommandRaises()
    ensures Classify("", "'foobarCall' is not recognized as an internal or external command") ==
            Err(WiFiError("'foobarCall' is not recognized as an internal or external command"))
  {
  }

  /** The word "error" without a colon is ordinary output. */
  lemma ErrorWithoutColonIsOutput()
    ensures Classify("Error", "") == Ok("Error")
  {
    assert ':' !in "Error";
  }

  /** "ERROR:" in upper case is still the in-band error report. */
  lemma UpperCaseErrorRaises()
    ensures Classify("ERROR:", "") == Err(WiFiError("ERROR:"))
  {
    assert Lower("ERROR:")[..5] == "error";
    assert "ERROR:"[5] == ':';
  }
}
