/** The profile list printed by `netsh wlan show profile`: every line of
    the form `<label> : <profile name>` names one profile. */
module ProfileList {
  import opened Outcomes
  import opened PyText
  import opened Commands

  /** The matches of the regular expression ` : (.*\n)` found by a left-to-right
      scan, as `re.findall` returns them: at each position, ` : ` followed by
      the rest of its line up to and including the line feed (`.` matches
      anything but a line feed); after a match the scan resumes behind it,
      otherwise one character further on. */
  function FindAll(t: string): (ms: seq<string>)
    ensures forall i :: 0 <= i < |ms| ==> OneLine(ms[i])
    decreases |t|
  {
    if |t| == 0 then []
    else if |t| >= 3 && t[..3] == FieldSep then
      match IndexOf(t[3..], "\n")
      case Some(q) =>
        var m, rest := t[3..3 + q + 1], FindAll(t[3 + q + 1..]);
        LineMatch(t[3..], q);
        assert m == t[3..][..q + 1];
        PrependOneLine(m, rest);
        [m] + rest
      case None => FindAll(t[1..])
    else FindAll(t[1..])
  }

  /** A single line with its line feed: `.*\n` matches nothing else. */
  predicate OneLine(m: string) {
    |m| >= 1 && m[|m| - 1] == '\n' && '\n' !in m[..|m| - 1]
  }

  /** The text up to and including the first line feed is one line. */
  lemma LineMatch(u: string, q: nat)
    requires IndexOf(u, "\n") == Some(q)
    ensures q < |u| && OneLine(u[..q + 1])
  {
    NoEarlierChar(u, '\n', q);
    assert OccursAt(u, "\n", q);
    EndsLine(u, q);
  }

  lemma EndsLine(u: string, q: nat)
    requires q < |u| && u[q..q + 1] == "\n" && '\n' !in u[..q]
    ensures OneLine(u[..q + 1])
  {
    var m := u[..q + 1];
    assert m[q] == u[q..q + 1][0];
    assert m[..q] == u[..q];
  }

  lemma PrependOneLine(m: string, rest: seq<string>)
    requires OneLine(m) && forall i :: 0 <= i < |rest| ==> OneLine(rest[i])
    ensures forall i :: 0 <= i < |[m] + rest| ==> OneLine(([m] + rest)[i])
  {
    forall i | 0 <= i < |[m] + rest| ensures OneLine(([m] + rest)[i]) {
      if i > 0 { assert ([m] + rest)[i] == rest[i - 1]; }
    }
  }

  /** `_parse_profiles`: every match, stripped of surrounding white space. */
  function ParseProfiles(report: string): (names: seq<string>)
    ensures names == ProfileLines(report)
  {
    FindAllByLines(report);
    StripEach(FindAll(report))
  }

  function StripEach(items: seq<string>): (r: seq<string>)
    ensures |r| == |items| && forall i :: 0 <= i < |items| ==> r[i] == Strip(items[i])
  {
    seq(|items|, i requires 0 <= i < |items| => Strip(items[i]))
  }

  /** The value a single line (without its line feed) contributes: the text
      after the first ` : ` on it, stripped, or nothing when it has none. */
  function LineValue(line: string): seq<string>
  {
    match AfterSep(line)
    case Some(v) => [Strip(v)]
    case None => []
  }

  /** The text after the first ` : ` of a line, if it has one. */
  function AfterSep(line: string): Option<string>
  {
    match IndexOf(line, FieldSep)
    case Some(i) => Some(line[i + 3..])
    case None => None
  }

  /** The profile names read line by line: each line ended by a line feed
      contributes its `LineValue`; a last line without a line feed contributes
      nothing. */
  function ProfileLines(t: string): (names: seq<string>)
    ensures forall i :: 0 <= i < |names| ==> Trimmed(names[i])
    decreases |t|
  {
    match IndexOf(t, "\n")
    case None => []
    case Some(q) =>
      var first, rest := LineValue(t[..q]), ProfileLines(t[q + 1..]);
      LineValueStripped(t[..q]);
      AppendTrimmed(first, rest);
      first + rest
  }

  /** Neither end of `s` is white space: what `strip` leaves. */
  predicate Trimmed(s: string) {
    s == [] || (!IsSpace(s[0]) && !IsSpace(s[|s| - 1]))
  }

  lemma AppendTrimmed(a: seq<string>, b: seq<string>)
    requires forall i :: 0 <= i < |a| ==> Trimmed(a[i])
    requires forall i :: 0 <= i < |b| ==> Trimmed(b[i])
    ensures forall i :: 0 <= i < |a + b| ==> Trimmed((a + b)[i])
  {
    forall i | 0 <= i < |a + b| ensures Trimmed((a + b)[i]) {
      if i >= |a| { assert (a + b)[i] == b[i - |a|]; }
    }
  }

  /** The value a line contributes is already stripped. */
  lemma LineValueStripped(line: string)
    ensures forall i :: 0 <= i < |LineValue(line)| ==> Trimmed(LineValue(line)[i])
  {
  }

  /** The raw capture of one line: as `LineValue`, but not yet stripped and
      still ending in its line feed. */
  function LineCapture(line: string): seq<string>
  {
    match AfterSep(line)
    case Some(v) => [v + "\n"]
    case None => []
  }

  /** A text with no line feed in it holds no match. */
  lemma {:induction false} FindAllWithoutNewline(t: string)
    requires '\n' !in t
    ensures FindAll(t) == []
    decreases |t|
  {
    if |t| > 0 {
      if |t| >= 3 && t[..3] == FieldSep {
        FirstCharOccurrence(t[3..], '\n');
      }
      FindAllWithoutNewline(t[1..]);
    }
  }

  /** The scan over one line and what follows it yields that line's capture,
      then the scan of the rest. */
  lemma {:induction false} FindAllOneLine(line: string, rest: string)
    requires '\n' !in line
    ensures FindAll(line + "\n" + rest) == LineCapture(line) + FindAll(rest)
    decreases |line|
  {
    var t := line + "\n" + rest;
    if |t| >= 3 && t[..3] == FieldSep {
      assert t[|line|] == '\n';
      assert forall i :: 0 <= i < 3 ==> t[..3][i] != '\n';
      assert |line| >= 3;
      assert line[..3] == t[..3];
      assert IndexOf(line, FieldSep) == Some(0);
      assert t[3..] == line[3..] + "\n" + rest;
      FirstCharAfter(line[3..], '\n', rest);
      assert t[3..|line| + 1] == line[3..] + "\n";
      assert t[|line| + 1..] == rest;
    } else if |line| == 0 {
      assert t[1..] == rest;
      assert IndexOf(line, FieldSep) == None;
    } else {
      var tail := line[1..];
      assert t[1..] == tail + "\n" + rest;
      FindAllOneLine(tail, rest);
      assert LineCapture(line) == LineCapture(tail) by {
        if |line| >= 3 {
          assert line[..3] == t[..3];
          OccursShift(line, FieldSep);
          match IndexOf(tail, FieldSep)
          case Some(k) =>
            assert line[k + 1 + 3..] == tail[k + 3..];
          case None =>
        }
      }
    }
  }

  /** The regular-expression scan equals reading the report line by line,
      before stripping. */
  lemma {:induction false} FindAllByLines(t: string)
    ensures StripEach(FindAll(t)) == ProfileLines(t)
    decreases |t|
  {
    match IndexOf(t, "\n")
    case None =>
      FirstCharNone(t, '\n');
      FindAllWithoutNewline(t);
    case Some(q) =>
      var line, rest := t[..q], t[q + 1..];
      NoEarlierChar(t, '\n', q);
      assert t[q..q + 1] == "\n";
      assert t == line + "\n" + rest;
      FindAllOneLine(line, rest);
      FindAllByLines(rest);
      CaptureStripsToValue(line);
      StripEachAppend(LineCapture(line), FindAll(rest));
  }

  lemma StripEachAppend(a: seq<string>, b: seq<string>)
    ensures StripEach(a + b) == StripEach(a) + StripEach(b)
  {
  }

  /** Stripping a capture gives the line's value: the line feed is white space. */
  lemma CaptureStripsToValue(line: string)
    ensures StripEach(LineCapture(line)) == LineValue(line)
  {
    match AfterSep(line)
    case Some(v) =>
      assert LineCapture(line) == [v + "\n"];
      assert LineValue(line) == [Strip(v)];
      StripEachOne(v + "\n");
      StripTrailingSpace(v, '\n');
    case None =>
  }

  lemma StripEachOne(x: string)
    ensures StripEach([x]) == [Strip(x)]
  {
    var r := StripEach([x]);
    assert |r| == 1 && r[0] == Strip([x][0]);
  }

  /** No occurrence of a one-character pattern means the character is absent. */
  lemma FirstCharNone(s: string, c: char)
    ensures IndexOf(s, [c]).None? ==> c !in s
  {
    if IndexOf(s, [c]).None? {
      forall i | 0 <= i < |s| ensures s[i] != c {
        assert !OccursAt(s, [c], i);
        assert s[i..i + 1] == [s[i]];
      }
    }
  }

  /** The first occurrence of a one-character pattern has no copy of that
      character before it. */
  lemma NoEarlierChar(s: string, c: char, q: nat)
    requires IndexOf(s, [c]) == Some(q)
    ensures c !in s[..q]
  {
    forall i | 0 <= i < q ensures s[i] != c {
      assert !OccursAt(s, [c], i);
      assert s[i..i + 1] == [s[i]];
    }
  }

  /** A line `tag : value` whose tag holds no colon names the profile
      `value`, stripped. */
  lemma ProfileLine(tag: string, value: string, rest: string)
    requires ':' !in tag && '\n' !in tag && '\n' !in value
    ensures ProfileLines(tag + FieldSep + value + "\n" + rest) == [Strip(value)] + ProfileLines(rest)
  {
    var line := tag + FieldSep + value;
    assert '\n' !in line by {
      forall i | 0 <= i < |line| ensures line[i] != '\n' {
        if i < |tag| { assert line[i] == tag[i]; }
        else if i >= |tag| + 3 { assert line[i] == value[i - |tag| - 3]; }
      }
    }
    FirstCharAfter(line, '\n', rest);
    var t := line + "\n" + rest;
    assert t[..|line|] == line;
    assert t[|line| + 1..] == rest;
    SeparatorAfterLabel(tag, value);
    assert line[|tag| + 3..] == value;
  }

  /** The first separator on `tag : value` is the one after the tag when
      the tag holds no colon. */
  lemma SeparatorAfterLabel(tag: string, value: string)
    requires ':' !in tag
    ensures IndexOf(tag + FieldSep + value, FieldSep) == Some(|tag|)
  {
    var line := tag + FieldSep + value;
    assert line[|tag|..|tag| + 3] == FieldSep;
    forall j | 0 <= j < |tag| ensures !OccursAt(line, FieldSep, j) {
      assert line[j + 1] != ':' by {
        if j + 1 < |tag| { assert line[j + 1] == tag[j + 1]; }
      }
      assert j + 3 <= |line| ==> line[j..j + 3][1] == line[j + 1];
    }
    assert OccursAt(line, FieldSep, |tag|);
    var r := IndexOf(line, FieldSep);
    assert r.Some? && r.value <= |tag|;
  }

  /** A line without ` : ` names no profile. */
  lemma PlainLine(line: string, rest: string)
    requires '\n' !in line && !Contains(line, FieldSep)
    ensures ProfileLines(line + "\n" + rest) == ProfileLines(rest)
  {
    FirstCharAfter(line, '\n', rest);
    var t := line + "\n" + rest;
    assert t[..|line|] == line;
    assert t[|line| + 1..] == rest;
  }

  /** Text after the last line feed names no profile: the pattern needs the
      line feed. */
  lemma UnterminatedLine(t: string)
    requires '\n' !in t
    ensures ProfileLines(t) == []
  {
    FirstCharOccurrence(t, '\n');
  }
}
