/** The Python `str` operations the chatbot relies on: `strip`, `lower`, the
    `in` substring test and `join`. `EndsWith` is not used by the chatbot; it
    states where the prompt's closing directive sits. */
module PyStr {

  /** Python's `str.isspace` set, which `str.strip()` removes. */
  const SpaceChars: set<char> :=
    {' ', '\t', '\n', '\U{B}', '\U{C}', '\r', '\U{1C}', '\U{1D}', '\U{1E}', '\U{1F}',
     '\U{85}', '\U{A0}', '\U{1680}', '\U{2000}', '\U{2001}', '\U{2002}', '\U{2003}',
     '\U{2004}', '\U{2005}', '\U{2006}', '\U{2007}', '\U{2008}', '\U{2009}', '\U{200A}',
     '\U{2028}', '\U{2029}', '\U{202F}', '\U{205F}', '\U{3000}'}

  predicate IsSpace(c: char) {
    c in SpaceChars
  }

  ghost predicate AllSpace(s: string) {
    forall i :: 0 <= i < |s| ==> IsSpace(s[i])
  }

  /** Neither end of `s` is whitespace. */
  ghost predicate Trimmed(s: string) {
    s == [] || (!IsSpace(s[0]) && !IsSpace(s[|s| - 1]))
  }

  /** `s.lstrip()`. */
  function TrimLeft(s: string): string {
    if s != [] && IsSpace(s[0]) then TrimLeft(s[1..]) else s
  }

  /** `s.rstrip()`. */
  function TrimRight(s: string): string {
    if s != [] && IsSpace(s[|s| - 1]) then TrimRight(s[..|s| - 1]) else s
  }

  /** `lstrip` keeps a suffix and drops only leading whitespace, all of it. */
  lemma {:induction false} TrimLeftSpec(s: string)
    ensures |TrimLeft(s)| <= |s| && TrimLeft(s) == s[|s| - |TrimLeft(s)|..]
    ensures AllSpace(s[..|s| - |TrimLeft(s)|])
    ensures TrimLeft(s) == [] || !IsSpace(TrimLeft(s)[0])
  {
    if s != [] && IsSpace(s[0]) {
      TrimLeftSpec(s[1..]);
      var k := |s| - |TrimLeft(s)|;
      assert s[1..][..k - 1] == s[1..k];
      assert forall i :: 1 <= i < k ==> s[i] == s[1..][..k - 1][i - 1];
    }
  }

  /** `rstrip` keeps a prefix and drops only trailing whitespace, all of it. */
  lemma {:induction false} TrimRightSpec(s: string)
    ensures |TrimRight(s)| <= |s| && TrimRight(s) == s[..|TrimRight(s)|]
    ensures AllSpace(s[|TrimRight(s)|..])
    ensures TrimRight(s) == [] || !IsSpace(TrimRight(s)[|TrimRight(s)| - 1])
  {
    if s != [] && IsSpace(s[|s| - 1]) {
      var t := s[..|s| - 1];
      TrimRightSpec(t);
      var k := |TrimRight(s)|;
      assert forall i :: k <= i < |s| - 1 ==> s[i] == t[k..][i - k];
    }
  }

  /** `s.strip()`: never longer than `s`, and neither end is whitespace. */
  function Strip(s: string): (r: string)
    ensures |r| <= |s|
    ensures Trimmed(r)
  {
    TrimLeftSpec(s);
    TrimRightSpec(TrimLeft(s));
    TrimRight(TrimLeft(s))
  }

  /** What `strip` returns: `s` is the result padded on both sides by
      whitespace only. */
  lemma StripSpec(s: string)
    ensures exists a :: 0 <= a <= |s| - |Strip(s)| && s[a..][..|Strip(s)|] == Strip(s)
                         && AllSpace(s[..a]) && AllSpace(s[a + |Strip(s)|..])
  {
    var t := TrimLeft(s);
    var r := TrimRight(t);
    TrimLeftSpec(s);
    TrimRightSpec(t);
    var a := |s| - |t|;
    assert s[a..][..|r|] == r;
    assert s[a + |r|..] == t[|r|..];
  }

  lemma {:induction false} TrimLeftSkips(p: string, t: string)
    requires AllSpace(p)
    ensures TrimLeft(p + t) == TrimLeft(t)
    decreases |p|
  {
    if p != [] {
      assert (p + t)[0] == p[0] && IsSpace(p[0]);
      assert (p + t)[1..] == p[1..] + t;
      TrimLeftSkips(p[1..], t);
    } else {
      assert p + t == t;
    }
  }

  lemma {:induction false} TrimRightSkips(t: string, q: string)
    requires AllSpace(q)
    ensures TrimRight(t + q) == TrimRight(t)
    decreases |q|
  {
    if q != [] {
      assert (t + q)[|t + q| - 1] == q[|q| - 1] && IsSpace(q[|q| - 1]);
      assert (t + q)[..|t + q| - 1] == t + q[..|q| - 1];
      TrimRightSkips(t, q[..|q| - 1]);
    } else {
      assert t + q == t;
    }
  }

  /** `strip` is determined by its two properties: whatever trimmed core is
      surrounded by whitespace padding is exactly what `strip` returns. */
  lemma StripUnique(p: string, r: string, q: string)
    requires AllSpace(p) && AllSpace(q) && Trimmed(r)
    ensures Strip(p + r + q) == r
  {
    assert p + r + q == p + (r + q);
    TrimLeftSkips(p, r + q);
    TrimRightSpec(r);
    if r == [] {
      assert r + q == q + [];
      TrimLeftSkips(q, []);
      assert TrimLeft(p + r + q) == [];
      assert Strip(p + r + q) == TrimRight([]);
    } else {
      TrimRightSkips(r, q);
    }
  }

  /** ASCII case mapping of `str.lower()`. */
  function LowerChar(c: char): char {
    if 'A' <= c <= 'Z' then (c as int + 32) as char else c
  }

  function Lower(s: string): (r: string)
    ensures |r| == |s|
    ensures forall i :: 0 <= i < |s| ==> !('A' <= r[i] <= 'Z')
    ensures forall i :: 0 <= i < |s| && !('A' <= s[i] <= 'Z') ==> r[i] == s[i]
    ensures forall i :: 0 <= i < |s| && 'A' <= s[i] <= 'Z' ==> r[i] as int == s[i] as int + 32
  {
    seq(|s|, i requires 0 <= i < |s| => LowerChar(s[i]))
  }

  /** `needle in hay` for Python strings: some suffix of `hay` starts with `needle`. */
  ghost predicate Occurs(needle: string, hay: string) {
    exists i :: 0 <= i <= |hay| && needle <= hay[i..]
  }

  /** Executable substring test, scanning the start positions left to right. */
  function Contains(hay: string, needle: string): (b: bool)
    ensures b <==> Occurs(needle, hay)
  {
    if needle <= hay then
      assert hay[0..] == hay;
      true
    else if hay == [] then
      false
    else
      var b := Contains(hay[1..], needle);
      assert forall i :: 1 <= i <= |hay| ==> hay[i..] == hay[1..][i - 1..];
      if b then
        var i :| 0 <= i <= |hay[1..]| && needle <= hay[1..][i..];
        assert hay[i + 1..] == hay[1..][i..];
        true
      else
        false
  }

  /** `s.endswith(suffix)`. */
  predicate EndsWith(s: string, suffix: string) {
    |suffix| <= |s| && s[|s| - |suffix|..] == suffix
  }

  /** `sep.join(parts)`. With a non-empty separator, as `"\n\n"` is, the joined
      string is empty exactly when there is nothing non-empty to join. */
  function Join(sep: string, parts: seq<string>): (r: string)
    ensures sep != [] ==> (r == [] <==> |parts| == 0 || (|parts| == 1 && parts[0] == []))
  {
    if |parts| == 0 then ""
    else if |parts| == 1 then parts[0]
    else parts[0] + sep + Join(sep, parts[1..])
  }

  /** Where part `k` starts inside `Join(sep, parts)`: the lengths of the parts
      before it and one separator after each of them. */
  function JoinOffset(sep: string, parts: seq<string>, k: nat): nat
    requires k <= |parts|
  {
    if k == 0 then 0 else JoinOffset(sep, parts, k - 1) + |parts[k - 1]| + |sep|
  }

  /** Joining keeps every part, in order, at its offset, followed by the separator
      when another part comes after it. */
  lemma {:induction false} JoinAt(sep: string, parts: seq<string>, k: nat)
    requires k < |parts|
    ensures JoinOffset(sep, parts, k) + |parts[k]| <= |Join(sep, parts)|
    ensures Join(sep, parts)[JoinOffset(sep, parts, k)..][..|parts[k]|] == parts[k]
    ensures k + 1 < |parts| ==>
      JoinOffset(sep, parts, k) + |parts[k]| + |sep| <= |Join(sep, parts)|
    ensures k + 1 < |parts| ==>
      Join(sep, parts)[JoinOffset(sep, parts, k) + |parts[k]|..][..|sep|] == sep
  {
    var j := Join(sep, parts);
    if |parts| == 1 {
    } else {
      var tail := Join(sep, parts[1..]);
      assert j == parts[0] + sep + tail;
      if k == 0 {
        JoinFirst(sep, parts);
      } else {
        JoinAt(sep, parts[1..], k - 1);
        OffsetShift(sep, parts, k);
        var o := JoinOffset(sep, parts[1..], k - 1);
        assert j[|parts[0]| + |sep| + o..] == tail[o..];
        assert j[|parts[0]| + |sep| + o + |parts[k]|..] == tail[o + |parts[k]|..];
      }
    }
  }

  /** With more than one part, the first part comes first, then a separator. */
  lemma JoinFirst(sep: string, parts: seq<string>)
    requires |parts| > 1
    ensures |parts[0]| + |sep| <= |Join(sep, parts)|
    ensures Join(sep, parts)[..|parts[0]|] == parts[0]
    ensures Join(sep, parts)[|parts[0]|..][..|sep|] == sep
  {
    var tail := Join(sep, parts[1..]);
    assert Join(sep, parts) == parts[0] + (sep + tail);
  }

  /** The joined string ends right after its last part: there is nothing
      after it. */
  lemma {:induction false} JoinLength(sep: string, parts: seq<string>)
    requires |parts| > 0
    ensures |Join(sep, parts)| == JoinOffset(sep, parts, |parts| - 1) + |parts[|parts| - 1]|
  {
    if |parts| > 1 {
      JoinLength(sep, parts[1..]);
      OffsetShift(sep, parts, |parts| - 1);
    }
  }

  lemma {:induction false} OffsetShift(sep: string, parts: seq<string>, k: nat)
    requires 1 <= k <= |parts|
    ensures JoinOffset(sep, parts, k) == |parts[0]| + |sep| + JoinOffset(sep, parts[1..], k - 1)
  {
    if k > 1 {
      OffsetShift(sep, parts, k - 1);
    }
  }
}
