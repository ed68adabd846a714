/** Decimal digits, concatenation of sequences, and the POSIX path helpers
    (os.path.basename, os.path.dirname, os.path.splitext) that the pipeline
    uses to name its files. */
module Text {

  predicate IsDigit(c: char) { '0' <= c <= '9' }

  predicate AllDigits(s: string) { forall i :: 0 <= i < |s| ==> IsDigit(s[i]) }

  function DigitChar(d: nat): (c: char)
    requires d < 10
    ensures IsDigit(c) && c as int - '0' as int == d
  {
    ('0' as int + d) as char
  }

  /** The decimal rendering of n, as Python's str(n) / f"{n}". */
  function NatToString(n: nat): (s: string)
    ensures |s| > 0 && AllDigits(s)
  {
    if n < 10 then [DigitChar(n)] else NatToString(n / 10) + [DigitChar(n % 10)]
  }

  /** The value of a run of decimal digits, as Python's int(s). */
  function DigitsValue(s: string): nat
    requires AllDigits(s)
  {
    if s == [] then 0 else DigitsValue(s[..|s| - 1]) * 10 + (s[|s| - 1] as int - '0' as int)
  }

  /** int(str(n)) == n. */
  lemma {:induction false} DigitsValueOfNatToString(n: nat)
    ensures DigitsValue(NatToString(n)) == n
  {
    if n >= 10 {
      DigitsValueOfNatToString(n / 10);
      var s := NatToString(n);
      assert s[..|s| - 1] == NatToString(n / 10);
    }
  }

  /** Distinct numbers have distinct decimal renderings. */
  lemma NatToStringInjective(a: nat, b: nat)
    requires NatToString(a) == NatToString(b)
    ensures a == b
  {
    DigitsValueOfNatToString(a);
    DigitsValueOfNatToString(b);
  }

  /** The concatenation of a sequence of sequences, in order. */
  function Flatten<T>(ss: seq<seq<T>>): seq<T>
  {
    if ss == [] then [] else Flatten(ss[..|ss| - 1]) + ss[|ss| - 1]
  }

  lemma {:induction false} FlattenAppend<T>(a: seq<seq<T>>, b: seq<seq<T>>)
    ensures Flatten(a + b) == Flatten(a) + Flatten(b)
    decreases |b|
  {
    if b != [] {
      assert (a + b)[..|a + b| - 1] == a + b[..|b| - 1];
      FlattenAppend(a, b[..|b| - 1]);
    } else {
      assert a + b == a;
    }
  }

  lemma AppendAssoc<T>(a: seq<T>, b: seq<T>, c: seq<T>)
    ensures a + (b + c) == (a + b) + c
  {
  }

  /** A non-empty sequence is its prefix followed by its last element. */
  lemma SplitLast<T>(s: seq<T>)
    requires s != []
    ensures s[..|s| - 1] + [s[|s| - 1]] == s
  {
  }

  /** The elements of a non-empty sequence: those of its prefix and its last. */
  lemma MultisetSplitLast<T>(s: seq<T>)
    requires s != []
    ensures multiset(s) == multiset(s[..|s| - 1]) + multiset{s[|s| - 1]}
  {
    SplitLast(s);
    assert multiset(s[..|s| - 1] + [s[|s| - 1]]) == multiset(s[..|s| - 1]) + multiset([s[|s| - 1]]);
  }

  lemma FlattenSnoc<T>(ss: seq<seq<T>>, s: seq<T>)
    ensures Flatten(ss + [s]) == Flatten(ss) + s
  {
    assert (ss + [s])[..|ss|] == ss;
  }

  /** Appending to the last element appends to the concatenation. */
  lemma FlattenExtendLast<T>(ss: seq<seq<T>>, x: seq<T>)
    requires |ss| > 0
    ensures Flatten(ss[..|ss| - 1] + [ss[|ss| - 1] + x]) == Flatten(ss) + x
  {
    var m := |ss| - 1;
    var pre, last := ss[..m], ss[m];
    FlattenSnoc(pre, last + x);
    var flat := Flatten(pre);
    assert Flatten(ss) == flat + last;
    AppendAssoc(flat, last, x);
  }

  /** Index of the last occurrence of c in s, or -1 (Python's str.rfind). */
  function RFind(s: string, c: char): (r: int)
    ensures -1 <= r < |s|
    ensures r >= 0 ==> s[r] == c
    ensures forall j :: r < j < |s| ==> s[j] != c
  {
    if s == [] then -1 else if s[|s| - 1] == c then |s| - 1 else RFind(s[..|s| - 1], c)
  }

  /** s with every trailing c removed (Python's str.rstrip(c)). */
  function RStrip(s: string, c: char): (r: string)
    ensures r <= s
    ensures r == [] || r[|r| - 1] != c
    ensures forall j :: |r| <= j < |s| ==> s[j] == c
  {
    if s != [] && s[|s| - 1] == c then RStrip(s[..|s| - 1], c) else s
  }

  /** os.path.basename: what follows the last '/'. */
  function Basename(p: string): (r: string)
    ensures |r| <= |p| && r == p[|p| - |r|..]
    ensures forall j :: 0 <= j < |r| ==> r[j] != '/'
    ensures |r| < |p| ==> p[|p| - |r| - 1] == '/'
  {
    p[RFind(p, '/') + 1..]
  }

  /** os.path.dirname: what precedes the last '/', with trailing slashes
      removed unless it consists of slashes only. */
  function Dirname(p: string): (r: string)
    ensures r <= p
    ensures RFind(p, '/') == -1 ==> r == []
    ensures RFind(p, '/') >= 0 ==> r != [] && |r| <= RFind(p, '/') + 1
    ensures forall j :: |r| <= j <= RFind(p, '/') ==> p[j] == '/'
    ensures r != [] && r[|r| - 1] == '/' ==> r == p[..RFind(p, '/') + 1] && forall j :: 0 <= j < |r| ==> r[j] == '/'
  {
    var head := p[..RFind(p, '/') + 1];
    if head != [] && exists j :: 0 <= j < |head| && head[j] != '/' then RStrip(head, '/') else head
  }

  /** The second half of os.path.splitext: the extension, from the last '.'
      of the final path component, provided that component does not consist
      of dots only up to that '.'; otherwise empty. */
  function Extension(p: string): (r: string)
    ensures r == [] || (r[0] == '.' && |r| <= |p| && r == p[|p| - |r|..])
    ensures forall j :: 0 <= j < |r| ==> r[j] != '/'
    ensures r != [] ==> |p| - |r| == RFind(p, '.') > RFind(p, '/')
    ensures r != [] ==> exists j :: RFind(p, '/') < j < RFind(p, '.') && p[j] != '.'
    ensures r == [] && RFind(p, '.') > RFind(p, '/') ==> forall j :: RFind(p, '/') < j < RFind(p, '.') ==> p[j] == '.'
  {
    var sep := RFind(p, '/');
    var dot := RFind(p, '.');
    if dot > sep && exists j :: sep < j < dot && p[j] != '.' then p[dot..] else []
  }

  /** The basename of a path built as dir + "/" + name is name itself. */
  lemma BasenameOfJoin(dir: string, name: string)
    requires forall j :: 0 <= j < |name| ==> name[j] != '/'
    ensures Basename(dir + "/" + name) == name
  {
    var p := dir + "/" + name;
    var r := RFind(p, '/');
    assert p[|dir|] == '/';
    assert r == |dir|;
    assert p[r + 1..] == name;
  }

  /** The directory of dir + "/" + name is dir, for a name without '/' and
      a non-empty dir without a trailing '/'. */
  lemma DirnameOfJoin(dir: string, name: string)
    requires dir != [] && dir[|dir| - 1] != '/'
    requires forall j :: 0 <= j < |name| ==> name[j] != '/'
    ensures Dirname(dir + "/" + name) == dir
  {
    var p := dir + "/" + name;
    assert p[|dir|] == '/';
    assert RFind(p, '/') == |dir|;
    var head := p[..|dir| + 1];
    assert head == dir + "/";
    assert head[|dir| - 1] != '/';
    assert head[..|head| - 1] == dir;
    assert RStrip(head, '/') == RStrip(dir, '/');
  }

  /** The extension of stem + "." + ext is "." + ext, for an ext without '.'
      or '/' and a stem whose final component holds a character other than
      '.'. */
  lemma ExtensionOfName(stem: string, ext: string)
    requires forall j :: 0 <= j < |ext| ==> ext[j] != '.' && ext[j] != '/'
    requires exists j :: RFind(stem, '/') < j < |stem| && stem[j] != '.'
    ensures Extension(stem + "." + ext) == "." + ext
  {
    LastSeparators(stem, ext);
    var j :| RFind(stem, '/') < j < |stem| && stem[j] != '.';
    ExtensionFrom(stem + "." + ext, |stem|, j);
    DotSuffix(stem, ext);
  }

  /** When the last '.' of p lies after its last '/' with a non-dot between,
      the extension is everything from that '.' on. */
  lemma ExtensionFrom(p: string, dot: int, j: int)
    requires RFind(p, '.') == dot && RFind(p, '/') < j < dot && p[j] != '.'
    ensures Extension(p) == p[dot..]
  {
  }

  /** Dropping the stem of stem + "." + ext leaves "." + ext. */
  lemma DotSuffix(stem: string, ext: string)
    ensures (stem + "." + ext)[|stem|..] == "." + ext
  {
  }

  /** In stem + "." + ext, with no '.' or '/' in ext, the last '.' is the
      one added and the last '/' is the stem's. */
  lemma LastSeparators(stem: string, ext: string)
    requires forall j :: 0 <= j < |ext| ==> ext[j] != '.' && ext[j] != '/'
    ensures RFind(stem + "." + ext, '.') == |stem|
    ensures RFind(stem + "." + ext, '/') == RFind(stem, '/')
  {
    RFindAddedDot(stem, ext);
    RFindAddedName(stem, ext);
  }

  /** The last '/' of stem + "." + ext, for ext without '/', is the stem's. */
  lemma RFindAddedName(stem: string, ext: string)
    requires forall j :: 0 <= j < |ext| ==> ext[j] != '/'
    ensures RFind(stem + "." + ext, '/') == RFind(stem, '/')
  {
    RFindAppendNone(stem, ".", '/');
    RFindAppendNone(stem + ".", ext, '/');
  }

  /** The last '.' of stem + "." + ext, for ext without '.', is the added one. */
  lemma RFindAddedDot(stem: string, ext: string)
    requires forall j :: 0 <= j < |ext| ==> ext[j] != '.'
    ensures RFind(stem + "." + ext, '.') == |stem|
  {
    var q := stem + ".";
    var p := q + ext;
    assert stem + "." + ext == p;
    NoneAfter(q, ext, '.');
    assert p[|stem|] == '.';
    RFindLast(p, '.', |stem|);
  }

  /** Appending t, which holds no c, leaves the last c where it was. */
  lemma RFindAppendNone(s: string, t: string, c: char)
    requires forall j :: 0 <= j < |t| ==> t[j] != c
    ensures RFind(s + t, c) == RFind(s, c)
  {
    NoneAfter(s, t, c);
    RFindPrefix(s, s + t, c);
  }

  /** Appending t, which holds no c, adds no c. */
  lemma NoneAfter(s: string, t: string, c: char)
    requires forall j :: 0 <= j < |t| ==> t[j] != c
    ensures s <= s + t
    ensures forall j :: |s| <= j < |s + t| ==> (s + t)[j] != c
  {
    forall j | |s| <= j < |s + t|
      ensures (s + t)[j] != c
    {
      assert (s + t)[j] == t[j - |s|];
    }
  }

  /** The last c of s is at i when s[i] is c and nothing after it is. */
  lemma RFindLast(s: string, c: char, i: int)
    requires 0 <= i < |s| && s[i] == c
    requires forall j :: i < j < |s| ==> s[j] != c
    ensures RFind(s, c) == i
  {
  }

  /** The last c of s + t is that of s when t holds no c. */
  lemma RFindPrefix(s: string, p: string, c: char)
    requires s <= p && forall j :: |s| <= j < |p| ==> p[j] != c
    ensures RFind(p, c) == RFind(s, c)
    decreases |p|
  {
    if p != s {
      assert s <= p[..|p| - 1];
      RFindPrefix(s, p[..|p| - 1], c);
    }
  }

  /** Python's str.isspace for one character: the characters str.strip()
      removes when called without arguments. */
  predicate IsSpace(c: char)
  {
    '\t' <= c <= '\r' || '\U{1C}' <= c <= ' ' || c == '\U{85}' || c == '\U{A0}' || c == '\U{1680}' ||
    '\U{2000}' <= c <= '\U{200A}' || c == '\U{2028}' || c == '\U{2029}' || c == '\U{202F}' ||
    c == '\U{205F}' || c == '\U{3000}'
  }

  function StripStart(s: string): (r: string)
    ensures |r| <= |s| && r == s[|s| - |r|..]
    ensures r == [] || !IsSpace(r[0])
    ensures forall j :: 0 <= j < |s| - |r| ==> IsSpace(s[j])
  {
    if s != [] && IsSpace(s[0]) then StripStart(s[1..]) else s
  }

  function StripEnd(s: string): (r: string)
    ensures r <= s
    ensures r == [] || !IsSpace(r[|r| - 1])
    ensures forall j :: |r| <= j < |s| ==> IsSpace(s[j])
  {
    if s != [] && IsSpace(s[|s| - 1]) then StripEnd(s[..|s| - 1]) else s
  }

  /** str.strip(): s without leading and trailing whitespace. */
  function Strip(s: string): string
  {
    StripEnd(StripStart(s))
  }

  /** Python's `a in b` on strings: a occurs in b as a contiguous run. */
  predicate IsSubstring(a: string, b: string)
  {
    a <= b || (b != [] && IsSubstring(a, b[1..]))
  }

  /** a occurs in b starting at position i. */
  predicate OccursAt(a: string, b: string, i: int)
  {
    0 <= i <= |b| - |a| && b[i..i + |a|] == a
  }

  /** The recursive substring test agrees with the definition by position. */
  lemma {:induction false} IsSubstringAt(a: string, b: string)
    ensures IsSubstring(a, b) <==> exists i :: OccursAt(a, b, i)
    decreases |b|
  {
    if a <= b {
      assert OccursAt(a, b, 0);
    } else if b != [] {
      IsSubstringAt(a, b[1..]);
      if IsSubstring(a, b[1..]) {
        var i :| OccursAt(a, b[1..], i);
        OccursShift(a, b, i);
      }
      if exists i :: OccursAt(a, b, i) {
        var i :| OccursAt(a, b, i);
        OccursUnshift(a, b, i);
      }
    }
  }

  /** An occurrence in the tail of b is one in b, a position later. */
  lemma OccursShift(a: string, b: string, i: int)
    requires b != [] && OccursAt(a, b[1..], i)
    ensures OccursAt(a, b, i + 1)
  {
    assert b[i + 1..i + 1 + |a|] == b[1..][i..i + |a|];
  }

  /** An occurrence in b of a string that is not a prefix of b is one in
      the tail of b, a position earlier. */
  lemma OccursUnshift(a: string, b: string, i: int)
    requires OccursAt(a, b, i) && !(a <= b)
    ensures i > 0 && OccursAt(a, b[1..], i - 1)
  {
    assert b[1..][i - 1..i - 1 + |a|] == b[i..i + |a|];
  }
}
