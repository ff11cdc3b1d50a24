/** The Python string operations the probe relies on, over `seq<char>`:
    substring search (`in`, `str.find`), `str.split(sep)`, `str.join`,
    `str.replace`, `str.strip()`, the last field of `str.split()`,
    `str.lower()` and "first line containing a marker". */
module Text {
  import opened Wrappers

  type String = seq<char>

  /** The characters Python's `str.isspace()` accepts; `str.split()` and
      `str.strip()` without arguments break and trim on exactly these. */
  predicate IsSpace(c: char) {
    || c == ' '
    || ('\t' <= c <= '\r')
    || ('\U{1C}' <= c <= '\U{1F}')
    || c == '\U{85}' || c == '\U{A0}' || c == '\U{1680}'
    || ('\U{2000}' <= c <= '\U{200A}')
    || c == '\U{2028}' || c == '\U{2029}' || c == '\U{202F}'
    || c == '\U{205F}' || c == '\U{3000}'
  }

  /** `p` occurs in `s` starting at index `i`. */
  predicate OccursAt(s: String, p: String, i: int) {
    0 <= i && i + |p| <= |s| && s[i..i + |p|] == p
  }

  /** Python's `s.find(p)`: the lowest index at which `p` occurs, if any. */
  function IndexOf(s: String, p: String): (r: Option<nat>)
    ensures r.Some? ==> OccursAt(s, p, r.value)
    ensures r.Some? ==> forall j :: 0 <= j < r.value ==> !OccursAt(s, p, j)
    ensures r.None? ==> forall j :: !OccursAt(s, p, j)
  {
    IndexFrom(s, p, 0)
  }

  function IndexFrom(s: String, p: String, i: nat): (r: Option<nat>)
    requires forall j :: 0 <= j < i ==> !OccursAt(s, p, j)
    ensures r.Some? ==> i <= r.value && OccursAt(s, p, r.value)
    ensures r.Some? ==> forall j :: 0 <= j < r.value ==> !OccursAt(s, p, j)
    ensures r.None? ==> forall j :: !OccursAt(s, p, j)
    decreases |s| - i
  {
    if i + |p| > |s| then None
    else if s[i..i + |p|] == p then Some(i)
    else IndexFrom(s, p, i + 1)
  }

  /** Python's `p in s`. */
  predicate Contains(s: String, p: String) {
    IndexOf(s, p).Some?
  }

  /** Python's `s.split(sep)` for a non-empty separator: the pieces between
      the occurrences of `sep` found scanning left to right. */
  function Split(s: String, sep: String): (r: seq<String>)
    requires |sep| > 0
    ensures |r| >= 1
    decreases |s|
  {
    match IndexOf(s, sep)
    case None => [s]
    case Some(i) => [s[..i]] + Split(s[i + |sep|..], sep)
  }

  /** Python's `sep.join(parts)`. */
  function Join(sep: String, parts: seq<String>): String {
    if |parts| == 0 then []
    else if |parts| == 1 then parts[0]
    else parts[0] + sep + Join(sep, parts[1..])
  }

  /** Python's `s.replace(pat, rep)` for a non-empty `pat`: every occurrence
      found scanning left to right, without overlap, is replaced. */
  function ReplaceAll(s: String, pat: String, rep: String): (r: String)
    requires |pat| > 0
    ensures !Contains(s, pat) ==> r == s
    decreases |s|
  {
    match IndexOf(s, pat)
    case None => s
    case Some(i) => s[..i] + rep + ReplaceAll(s[i + |pat|..], pat, rep)
  }

  /** No piece of a split contains the separator. */
  lemma {:induction false} SplitPiecesAvoidSeparator(s: String, sep: String)
    requires |sep| > 0
    ensures forall k :: 0 <= k < |Split(s, sep)| ==> !Contains(Split(s, sep)[k], sep)
    decreases |s|
  {
    match IndexOf(s, sep)
    case None =>
    case Some(i) =>
      var head := s[..i];
      forall j | OccursAt(head, sep, j)
        ensures false
      {
        assert s[j..j + |sep|] == head[j..j + |sep|];
        assert OccursAt(s, sep, j);
      }
      assert !Contains(head, sep);
      SplitPiecesAvoidSeparator(s[i + |sep|..], sep);
  }

  /** `s.replace(pat, rep) == rep.join(s.split(pat))`: replacing is splitting
      on the pattern and joining the pieces with the replacement. */
  lemma {:induction false} ReplaceIsJoinOfSplit(s: String, pat: String, rep: String)
    requires |pat| > 0
    ensures ReplaceAll(s, pat, rep) == Join(rep, Split(s, pat))
    decreases |s|
  {
    match IndexOf(s, pat)
    case None =>
    case Some(i) =>
      var tail := s[i + |pat|..];
      var rest := Split(tail, pat);
      ReplaceIsJoinOfSplit(tail, pat, rep);
      assert Split(s, pat) == [s[..i]] + rest;
      assert ([s[..i]] + rest)[1..] == rest;
  }

  /** Splitting on a separator and joining with it gives the text back. */
  lemma {:induction false} JoinSplitRoundTrip(s: String, sep: String)
    requires |sep| > 0
    ensures Join(sep, Split(s, sep)) == s
    decreases |s|
  {
    ReplaceIsJoinOfSplit(s, sep, sep);
    ReplaceWithItselfIsIdentity(s, sep);
  }

  lemma {:induction false} ReplaceWithItselfIsIdentity(s: String, sep: String)
    requires |sep| > 0
    ensures ReplaceAll(s, sep, sep) == s
    decreases |s|
  {
    match IndexOf(s, sep)
    case None =>
    case Some(i) =>
      ReplaceWithItselfIsIdentity(s[i + |sep|..], sep);
      assert s[i..i + |sep|] == sep;
      assert s == s[..i] + sep + s[i + |sep|..];
  }

  /** Python's `s.split(sep)[-1]`: the text after the last separator. */
  function LastPiece(s: String, sep: String): String
    requires |sep| > 0
  {
    var parts := Split(s, sep);
    parts[|parts| - 1]
  }

  /** The last piece holds no separator. */
  lemma LastPieceAvoidsSeparator(s: String, sep: String)
    requires |sep| > 0
    ensures !Contains(LastPiece(s, sep), sep)
  {
    SplitPiecesAvoidSeparator(s, sep);
  }

  /** Text after the only occurrence of the separator is the last piece: no
      occurrence starts in `p`, even one running into the separator. */
  lemma LastPieceAfterOnlyOccurrence(p: String, sep: String, v: String)
    requires |sep| > 0
    requires !Contains(p + sep[..|sep| - 1], sep) && !Contains(v, sep)
    ensures LastPiece(p + sep + v, sep) == v
  {
    var s := p + sep + v;
    var head := p + sep[..|sep| - 1];
    assert s[|p|..|p| + |sep|] == sep;
    assert OccursAt(s, sep, |p|);
    forall j | 0 <= j < |p|
      ensures !OccursAt(s, sep, j)
    {
      assert s[j..j + |sep|] == head[j..j + |sep|];
      assert !OccursAt(head, sep, j);
    }
    assert IndexOf(s, sep) == Some(|p|);
    assert s[|p| + |sep|..] == v;
    LastPieceAfterFirst(s, sep, |p|);
    var k := LastPieceFollowsSeparator(v, sep);
    assert k == 0 && v[0..] == v;
  }

  /** The last piece is the suffix of `s` starting at the returned index, and
      when `s` contains the separator that suffix is preceded by one. */
  lemma {:induction false} LastPieceFollowsSeparator(s: String, sep: String) returns (k: nat)
    requires |sep| > 0
    ensures k <= |s| && LastPiece(s, sep) == s[k..]
    ensures !Contains(s, sep) ==> k == 0
    ensures Contains(s, sep) ==> |sep| <= k && s[k - |sep|..k] == sep
    decreases |s|
  {
    match IndexOf(s, sep)
    case None =>
      k := 0;
    case Some(i) =>
      var tail := s[i + |sep|..];
      LastPieceAfterFirst(s, sep, i);
      var k' := LastPieceFollowsSeparator(tail, sep);
      k := i + |sep| + k';
      assert tail[k'..] == s[k..];
      if Contains(tail, sep) {
        assert s[k - |sep|..k] == tail[k' - |sep|..k'];
      } else {
        assert k' == 0 && k - |sep| == i;
        assert OccursAt(s, sep, i);
      }
  }

  /** Splitting at the first separator leaves the last piece to the rest. */
  lemma LastPieceAfterFirst(s: String, sep: String, i: nat)
    requires |sep| > 0 && IndexOf(s, sep) == Some(i)
    ensures LastPiece(s, sep) == LastPiece(s[i + |sep|..], sep)
  {
    var rest := Split(s[i + |sep|..], sep);
    var parts := Split(s, sep);
    assert parts == [s[..i]] + rest;
    assert parts[|parts| - 1] == rest[|rest| - 1];
  }

  /** `s` with trailing whitespace removed (Python's `s.rstrip()`). */
  function TrimEnd(s: String): (r: String)
    ensures |r| <= |s| && r == s[..|r|]
    ensures forall k :: |r| <= k < |s| ==> IsSpace(s[k])
    ensures |r| > 0 ==> !IsSpace(r[|r| - 1])
  {
    if |s| > 0 && IsSpace(s[|s| - 1]) then TrimEnd(s[..|s| - 1]) else s
  }

  /** The number of whitespace characters `s` starts with. */
  function LeadingSpaces(s: String): (n: nat)
    ensures n <= |s|
    ensures forall k :: 0 <= k < n ==> IsSpace(s[k])
    ensures n < |s| ==> !IsSpace(s[n])
  {
    if |s| > 0 && IsSpace(s[0]) then 1 + LeadingSpaces(s[1..]) else 0
  }

  /** `s[i..j]` is flanked by whitespace only. */
  predicate SpaceOutside(s: String, i: int, j: int) {
    && 0 <= i <= j <= |s|
    && (forall k :: 0 <= k < i ==> IsSpace(s[k]))
    && (forall k :: j <= k < |s| ==> IsSpace(s[k]))
  }

  /** Python's `s.strip()`: the text of `s` from its first non-whitespace
      character up to and including its last one. */
  function Strip(s: String): (r: String)
    ensures var i := LeadingSpaces(s); SpaceOutside(s, i, i + |r|) && r == s[i..i + |r|]
    ensures |r| > 0 ==> !IsSpace(r[0]) && !IsSpace(r[|r| - 1])
  {
    var e := TrimEnd(s);
    var i := LeadingSpaces(e);
    assert forall k :: 0 <= k < |e| ==> s[k] == e[k];
    assert i < |e| ==> LeadingSpaces(s) == i;
    e[i..]
  }

  /** Where the trailing run of non-whitespace characters of `t` begins. */
  function TokenStart(t: String): (r: nat)
    ensures r <= |t|
    ensures forall k :: r <= k < |t| ==> !IsSpace(t[k])
    ensures r > 0 ==> IsSpace(t[r - 1])
  {
    if |t| == 0 || IsSpace(t[|t| - 1]) then |t| else TokenStart(t[..|t| - 1])
  }

  /** Python's `s.split()[-1]`; `None` where Python raises `IndexError`
      because `s` holds no field at all. */
  function LastField(s: String): (r: Option<String>)
    ensures r.None? <==> forall k :: 0 <= k < |s| ==> IsSpace(s[k])
    ensures r.Some? ==> |r.value| > 0 && forall k :: 0 <= k < |r.value| ==> !IsSpace(r.value[k])
    ensures r.Some? ==> var j := |TrimEnd(s)|; var i := j - |r.value|;
      0 <= i && r.value == s[i..j] && (i == 0 || IsSpace(s[i - 1]))
  {
    var t := TrimEnd(s);
    if |t| == 0 then None
    else
      assert s[|t| - 1] == t[|t| - 1] && !IsSpace(s[|t| - 1]);
      var i := TokenStart(t);
      assert i < |t|;
      assert t[i..] == s[i..|t|];
      Some(t[i..])
  }

  /** A field after whitespace at the end of a line is its last field. */
  lemma LastFieldAfterSpace(p: String, w: String)
    requires |w| > 0 && forall k :: 0 <= k < |w| ==> !IsSpace(w[k])
    ensures LastField(p + " " + w) == Some(w)
  {
    var s := p + " " + w;
    assert s[|s| - 1] == w[|w| - 1];
    assert TrimEnd(s) == s;
    forall k | |p| + 1 <= k < |s|
      ensures !IsSpace(s[k])
    {
      assert s[k] == w[k - |p| - 1];
    }
    assert IsSpace(s[|p|]);
    TokenStartAt(s, |p| + 1);
    assert s[|p| + 1..] == w;
  }

  /** The trailing run of non-whitespace is the one preceded by whitespace. */
  lemma {:induction false} TokenStartAt(t: String, j: nat)
    requires j <= |t|
    requires forall k :: j <= k < |t| ==> !IsSpace(t[k])
    requires j > 0 ==> IsSpace(t[j - 1])
    ensures TokenStart(t) == j
    decreases |t|
  {
    if |t| > j {
      var t' := t[..|t| - 1];
      assert forall k :: j <= k < |t'| ==> t'[k] == t[k];
      if j > 0 {
        assert t'[j - 1] == t[j - 1];
      }
      TokenStartAt(t', j);
    }
  }

  /** Python's `c.lower()` on the characters whose lower case is an ASCII
      letter: `A`..`Z` and the Kelvin sign. */
  function LowerChar(c: char): char {
    if 'A' <= c <= 'Z' then (c as int + 32) as char
    else if c == '\U{212A}' then 'k'
    else c
  }

  /** Python's `s.lower()`, character by character. */
  function Lower(s: String): (r: String)
    ensures |r| == |s|
    ensures forall k :: 0 <= k < |s| ==> r[k] == LowerChar(s[k])
  {
    seq(|s|, k requires 0 <= k < |s| => LowerChar(s[k]))
  }

  /** The index of the first line containing `marker`, as the loops
      `for line in lines: if marker in line: ...` find it. */
  function FirstLineContaining(lines: seq<String>, marker: String): (r: Option<nat>)
    ensures r.Some? ==> r.value < |lines| && Contains(lines[r.value], marker)
    ensures r.Some? ==> forall j :: 0 <= j < r.value ==> !Contains(lines[j], marker)
    ensures r.None? ==> forall j :: 0 <= j < |lines| ==> !Contains(lines[j], marker)
  {
    FirstLineFrom(lines, marker, 0)
  }

  function FirstLineFrom(lines: seq<String>, marker: String, i: nat): (r: Option<nat>)
    requires i <= |lines|
    requires forall j :: 0 <= j < i ==> !Contains(lines[j], marker)
    ensures r.Some? ==> i <= r.value < |lines| && Contains(lines[r.value], marker)
    ensures r.Some? ==> forall j :: 0 <= j < r.value ==> !Contains(lines[j], marker)
    ensures r.None? ==> forall j :: 0 <= j < |lines| ==> !Contains(lines[j], marker)
    decreases |lines| - i
  {
    if i == |lines| then None
    else if Contains(lines[i], marker) then Some(i)
    else FirstLineFrom(lines, marker, i + 1)
  }
}
