/** The Python string operations the wrapper relies on, over `seq<char>`:
    substring search (`in`, `find`), `split`, `join`, `replace`, `strip`
    and `lower`. */
module PyText {
  import opened Outcomes

  /** `pat` occurs in `s` starting at index `i`. */
  predicate OccursAt(s: string, pat: string, i: int) {
    0 <= i && i + |pat| <= |s| && s[i..i + |pat|] == pat
  }

  /** Python's `pat in s` for two strings, as a statement about positions. */
  ghost predicate Occurs(s: string, pat: string) {
    exists i :: OccursAt(s, pat, i)
  }

  /** Index of the leftmost occurrence of `pat` in `s` (Python's `s.find(pat)`). */
  function IndexOf(s: string, pat: string): (r: Option<nat>)
    ensures r.Some? ==> OccursAt(s, pat, r.value)
    ensures r.Some? ==> forall j :: 0 <= j < r.value ==> !OccursAt(s, pat, j)
    ensures r.None? ==> forall j :: !OccursAt(s, pat, j)
    decreases |s|
  {
    if |s| < |pat| then None
    else if s[..|pat|] == pat then Some(0)
    else
      OccursShift(s, pat);
      match IndexOf(s[1..], pat)
      case None => None
      case Some(k) => Some(k + 1)
  }

  /** An occurrence in `s` after its first character is an occurrence in `s[1..]`. */
  lemma OccursShift(s: string, pat: string)
    requires |s| >= 1
    ensures OccursAt(s, pat, 0) <==> |pat| <= |s| && s[..|pat|] == pat
    ensures forall j :: 1 <= j ==> (OccursAt(s, pat, j) <==> OccursAt(s[1..], pat, j - 1))
  {
    if |pat| <= |s| {
      assert s[0..|pat|] == s[..|pat|];
    }
    forall j | 1 <= j ensures OccursAt(s, pat, j) <==> OccursAt(s[1..], pat, j - 1) {
      if j + |pat| <= |s| {
        assert s[1..][j - 1..j - 1 + |pat|] == s[j..j + |pat|];
      }
    }
  }

  /** Python's `pat in s`: true exactly when `pat` occurs somewhere in `s`. */
  function Contains(s: string, pat: string): (b: bool)
    ensures b <==> Occurs(s, pat)
  {
    ContainsMeansOccurs(s, pat);
    IndexOf(s, pat).Some?
  }

  lemma ContainsMeansOccurs(s: string, pat: string)
    ensures IndexOf(s, pat).Some? <==> Occurs(s, pat)
  {
    if Occurs(s, pat) {
      var i :| OccursAt(s, pat, i);
    }
  }

  /** Python's `s.split(sep)`: the pieces between the non-overlapping
      occurrences of `sep`, found from the left. */
  function Split(s: string, sep: string): (parts: seq<string>)
    requires |sep| > 0
    ensures |parts| >= 1
    decreases |s|
  {
    match IndexOf(s, sep)
    case None => [s]
    case Some(i) => [s[..i]] + Split(s[i + |sep|..], sep)
  }

  /** Python's `sep.join(parts)`. */
  function Join(parts: seq<string>, sep: string): string
  {
    if |parts| == 0 then ""
    else if |parts| == 1 then parts[0]
    else parts[0] + sep + Join(parts[1..], sep)
  }

  /** Joining one more piece appends the separator and that piece. */
  lemma {:induction false} JoinSnoc(parts: seq<string>, last: string, sep: string)
    requires |parts| >= 1
    ensures Join(parts + [last], sep) == Join(parts, sep) + sep + last
    decreases |parts|
  {
    if |parts| > 1 {
      assert (parts + [last])[1..] == parts[1..] + [last];
      JoinSnoc(parts[1..], last, sep);
    } else {
      assert (parts + [last])[1..] == [last];
    }
  }

  /** Python's `s.replace(target, replacement)` for a non-empty `target`. */
  function Replace(s: string, target: string, replacement: string): string
    requires |target| > 0
  {
    Join(Split(s, target), replacement)
  }

  /** A text without `target` comes back from `replace` unchanged. */
  lemma ReplaceWithoutTarget(s: string, target: string, replacement: string)
    requires |target| > 0 && !Occurs(s, target)
    ensures Replace(s, target, replacement) == s
  {
    ContainsMeansOccurs(s, target);
  }

  /** Joining the pieces of a split with its own separator gives the text back. */
  lemma {:induction false} JoinSplit(s: string, sep: string)
    requires |sep| > 0
    ensures Join(Split(s, sep), sep) == s
    decreases |s|
  {
    match IndexOf(s, sep)
    case None =>
    case Some(i) =>
      var head, rest := s[..i], s[i + |sep|..];
      var pieces := Split(rest, sep);
      JoinSplit(rest, sep);
      assert Split(s, sep) == [head] + pieces;
      assert ([head] + pieces)[0] == head && ([head] + pieces)[1..] == pieces;
      assert Join([head] + pieces, sep) == head + sep + Join(pieces, sep);
      assert s[i..i + |sep|] == sep;
      assert s == head + s[i..i + |sep|] + rest;
  }

  /** A split yields more than one piece exactly when the separator occurs. */
  lemma SplitHasSecondPiece(s: string, sep: string)
    requires |sep| > 0
    ensures |Split(s, sep)| >= 2 <==> Occurs(s, sep)
  {
    ContainsMeansOccurs(s, sep);
  }

  /** No piece of a split contains the separator. */
  lemma {:induction false} SplitPiecesAvoidSeparator(s: string, sep: string)
    requires |sep| > 0
    ensures forall p :: p in Split(s, sep) ==> !Occurs(p, sep)
    decreases |s|
  {
    match IndexOf(s, sep)
    case None =>
      ContainsMeansOccurs(s, sep);
    case Some(i) =>
      SplitPiecesAvoidSeparator(s[i + |sep|..], sep);
      var head := s[..i];
      forall j | OccursAt(head, sep, j) ensures false {
        assert s[j..j + |sep|] == head[j..j + |sep|];
        assert OccursAt(s, sep, j);
      }
  }

  /** Splitting a join on a one-character separator that no piece contains
      gives the pieces back. */
  lemma {:induction false} SplitJoin(parts: seq<string>, c: char)
    requires |parts| >= 1
    requires forall p :: p in parts ==> c !in p
    ensures Split(Join(parts, [c]), [c]) == parts
    decreases |parts|
  {
    var head := parts[0];
    assert head in parts;
    FirstCharOccurrence(head, c);
    if |parts| == 1 {
      assert Join(parts, [c]) == head;
    } else {
      var tail := parts[1..];
      var s := Join(parts, [c]);
      assert s == head + [c] + Join(tail, [c]);
      FirstCharAfter(head, c, Join(tail, [c]));
      assert s[..|head|] == head;
      assert s[|head| + 1..] == Join(tail, [c]);
      assert Split(s, [c]) == [head] + Split(Join(tail, [c]), [c]);
      forall p | p in tail ensures c !in p { assert p in parts; }
      SplitJoin(tail, c);
      assert parts == [head] + tail;
    }
  }

  /** A one-character pattern is found only where that character stands. */
  lemma FirstCharOccurrence(s: string, c: char)
    ensures IndexOf(s, [c]).Some? ==> c in s
  {
    if IndexOf(s, [c]).Some? {
      var i := IndexOf(s, [c]).value;
      assert s[i..i + 1] == [c];
      assert s[i] == c;
    }
  }

  lemma FirstCharAfter(head: string, c: char, tail: string)
    requires c !in head
    ensures IndexOf(head + [c] + tail, [c]) == Some(|head|)
  {
    var s := head + [c] + tail;
    assert OccursAt(s, [c], |head|) by { assert s[|head|..|head| + 1] == [c]; }
    forall j | 0 <= j < |head| ensures !OccursAt(s, [c], j) {
      assert s[j..j + 1] == [head[j]];
    }
  }

  /** Python's `str.isspace()` for a single character. */
  predicate IsSpace(ch: char) {
    var n := ch as int;
    n == 0x20 || 0x09 <= n <= 0x0D || 0x1C <= n <= 0x1F || n == 0x85 || n == 0xA0
    || n == 0x1680 || 0x2000 <= n <= 0x200A || n == 0x2028 || n == 0x2029
    || n == 0x202F || n == 0x205F || n == 0x3000
  }

  /** `s` without its leading white space (Python's `s.lstrip()`). */
  function StripLeft(s: string): (r: string)
    ensures |r| <= |s| && r == s[|s| - |r|..]
    ensures r == [] || !IsSpace(r[0])
    ensures forall i :: 0 <= i < |s| - |r| ==> IsSpace(s[i])
  {
    if |s| > 0 && IsSpace(s[0]) then StripLeft(s[1..]) else s
  }

  /** `s` without its trailing white space (Python's `s.rstrip()`). */
  function StripRight(s: string): (r: string)
    ensures |r| <= |s| && r == s[..|r|]
    ensures r == [] || !IsSpace(r[|r| - 1])
    ensures forall i :: |r| <= i < |s| ==> IsSpace(s[i])
  {
    if |s| > 0 && IsSpace(s[|s| - 1]) then StripRight(s[..|s| - 1]) else s
  }

  /** Python's `s.strip()`: neither end of the result is white space. */
  function Strip(s: string): (r: string)
    ensures r == [] || (!IsSpace(r[0]) && !IsSpace(r[|r| - 1]))
  {
    StripRight(StripLeft(s))
  }

  lemma StripIdempotent(s: string)
    ensures Strip(Strip(s)) == Strip(s)
  {
    var r := Strip(s);
    assert StripLeft(r) == r;
    assert StripRight(r) == r;
  }

  /** One more white-space character at the end does not change what `strip` keeps. */
  lemma {:induction false} StripTrailingSpace(s: string, ch: char)
    requires IsSpace(ch)
    ensures Strip(s + [ch]) == Strip(s)
    decreases |s|
  {
    var t := s + [ch];
    if |s| == 0 {
      assert StripLeft(t) == StripLeft([]);
    } else if IsSpace(s[0]) {
      assert t[1..] == s[1..] + [ch];
      assert StripLeft(t) == StripLeft(s[1..] + [ch]);
      StripTrailingSpace(s[1..], ch);
    } else {
      assert StripLeft(t) == t;
      assert StripLeft(s) == s;
      assert t[..|s|] == s;
      assert StripRight(t) == StripRight(s);
    }
  }

  /** Python's `c.lower()` restricted to ASCII letters. */
  function LowerChar(c: char): char {
    if 'A' <= c <= 'Z' then (c as int + 32) as char else c
  }

  /** Python's `s.lower()` on ASCII letters (exactly `bytes.lower()`). */
  function Lower(s: string): (r: string)
    ensures |r| == |s| && forall i :: 0 <= i < |s| ==> r[i] == LowerChar(s[i])
  {
    seq(|s|, i requires 0 <= i < |s| => LowerChar(s[i]))
  }

  /** Replacing a one-character pattern is a character-by-character substitution. */
  lemma {:induction false} ReplaceCharwise(s: string, a: char, b: char)
    ensures |Replace(s, [a], [b])| == |s|
    ensures forall i :: 0 <= i < |s| ==> Replace(s, [a], [b])[i] == if s[i] == a then b else s[i]
    decreases |s|
  {
    match IndexOf(s, [a])
    case None =>
      assert Replace(s, [a], [b]) == s;
      forall i | 0 <= i < |s| ensures s[i] != a {
        assert !OccursAt(s, [a], i);
        assert s[i..i + 1] == [s[i]];
      }
    case Some(k) =>
      var rest := s[k + 1..];
      ReplaceCharwise(rest, a, b);
      var pieces := Split(rest, [a]);
      assert Split(s, [a]) == [s[..k]] + pieces;
      assert Replace(s, [a], [b]) == s[..k] + [b] + Replace(rest, [a], [b]);
      assert s[k..k + 1] == [a];
      forall i | 0 <= i < k ensures s[i] != a {
        assert !OccursAt(s, [a], i);
        assert s[i..i + 1] == [s[i]];
      }
  }
}
