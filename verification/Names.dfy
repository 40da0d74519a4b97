/** The codec between 8.3 file names and the 11-byte name field of a directory entry. */
module Names {
  import opened Bytes
  import opened DirEntry

  const BLANK: byte := 0x20

  /** The part of `s` before its first dot. */
  function Base(s: seq<byte>): (b: seq<byte>)
    ensures b <= s && DOT !in b
    ensures |b| < |s| ==> s[|b|] == DOT
  {
    if s == [] || s[0] == DOT then [] else [s[0]] + Base(s[1..])
  }

  /** The part of `s` after its first dot. */
  function Extension(s: seq<byte>): seq<byte> {
    if |Base(s)| < |s| then s[|Base(s)| + 1..] else []
  }

  function Upper(c: byte): byte {
    if 0x61 <= c <= 0x7A then c - 0x20 else c
  }

  function UpperAll(s: seq<byte>): (r: seq<byte>)
    ensures |r| == |s| && forall i :: 0 <= i < |s| ==> r[i] == Upper(s[i])
  {
    seq(|s|, i requires 0 <= i < |s| => Upper(s[i]))
  }

  /** Printable ASCII other than the dot and the characters that the platform refuses. */
  predicate LegalChar(c: byte, illegal: set<byte>) {
    0x21 <= c <= 0x7E && c != DOT && c !in illegal
  }

  predicate AllLegal(s: seq<byte>, illegal: set<byte>) {
    forall i :: 0 <= i < |s| ==> LegalChar(s[i], illegal)
  }

  /** One to eight legal characters, then optionally a dot and up to three more. */
  predicate IsName83(s: seq<byte>, illegal: set<byte>) {
    && 1 <= |Base(s)| <= 8 && |Extension(s)| <= 3
    && AllLegal(Base(s), illegal) && AllLegal(Extension(s), illegal)
  }

  function Blanks(n: nat): (r: seq<byte>)
    ensures |r| == n && forall i :: 0 <= i < n ==> r[i] == BLANK
  {
    seq(n, _ => BLANK)
  }

  /** `s` in upper case, filled with blanks to `n` bytes. */
  function Padded(s: seq<byte>, n: nat): (r: seq<byte>)
    requires |s| <= n
    ensures |r| == n
  {
    UpperAll(s) + Blanks(n - |s|)
  }

  /** The name field for an 8.3 name. */
  function Encode(s: seq<byte>): (r: seq<byte>)
    requires |Base(s)| <= 8 && |Extension(s)| <= 3
    ensures |r| == 11
  {
    Padded(Base(s), 8) + Padded(Extension(s), 3)
  }

  /** State of make83Name after `k` characters: `i` is the next slot, `n` the last one allowed. */
  ghost predicate Encoding(s: seq<byte>, illegal: set<byte>, k: nat, n: nat, i: nat, name: seq<byte>) {
    var b := |Base(s)|;
    && k <= |s| && |name| == 11
    && (if k <= b then n == 7 && i == k <= 8 else n == 10 && b <= 8 && i == 8 + (k - b - 1) <= 11)
    && (forall j :: 0 <= j < k && j != b ==> LegalChar(s[j], illegal))
    && (forall j :: 0 <= j < 8 ==> name[j] == if j < k && j < b then Upper(s[j]) else BLANK)
    && (forall j :: 8 <= j < 11 ==> name[j] == if k > b && j < i then Upper(s[j - 8 + b + 1]) else BLANK)
  }

  lemma EncodeStart(s: seq<byte>, illegal: set<byte>, name: seq<byte>)
    requires |name| == 11 && forall j :: 0 <= j < 11 ==> name[j] == BLANK
    ensures Encoding(s, illegal, 0, 7, 0, name)
  {
  }

  /** The first dot starts the extension; a second one is an error. */
  lemma EncodeDot(s: seq<byte>, illegal: set<byte>, k: nat, n: nat, i: nat, name: seq<byte>)
    requires Encoding(s, illegal, k, n, i, name) && k < |s| && s[k] == DOT
    ensures n != 10 ==> Encoding(s, illegal, k + 1, 10, 8, name)
    ensures n == 10 ==> !IsName83(s, illegal)
  {
    var b := |Base(s)|;
    assert forall j :: 0 <= j < b ==> Base(s)[j] == s[j] != DOT;
    if k > b {
      assert Extension(s)[k - b - 1] == DOT;
    }
  }

  /** Any other character is stored if it is legal and has room. */
  lemma EncodeChar(s: seq<byte>, illegal: set<byte>, k: nat, n: nat, i: nat, name: seq<byte>)
    requires Encoding(s, illegal, k, n, i, name) && k < |s| && s[k] != DOT
    ensures LegalChar(s[k], illegal) && i <= n ==>
      i < 11 && Encoding(s, illegal, k + 1, n, i + 1, name[i := Upper(s[k])])
    ensures !LegalChar(s[k], illegal) || i > n ==> !IsName83(s, illegal)
  {
    var b := |Base(s)|;
    if k < b {
      assert Base(s)[k] == s[k];
    } else {
      assert k > b && Extension(s)[k - b - 1] == s[k];
    }
  }

  lemma EncodeDone(s: seq<byte>, illegal: set<byte>, n: nat, i: nat, name: seq<byte>)
    requires Encoding(s, illegal, |s|, n, i, name)
    ensures name[0] != BLANK <==> IsName83(s, illegal)
    ensures name[0] != BLANK ==> name == Encode(s)
  {
    var b := |Base(s)|;
    forall j | 0 <= j < |Base(s)|
      ensures LegalChar(Base(s)[j], illegal)
    {
      assert Base(s)[j] == s[j];
    }
    forall j | 0 <= j < |Extension(s)|
      ensures LegalChar(Extension(s)[j], illegal)
    {
      assert Extension(s)[j] == s[b + 1 + j];
    }
    if b > 0 {
      assert Base(s)[0] == s[0];
    }
    if name[0] != BLANK {
      forall j | 0 <= j < 11
        ensures name[j] == Encode(s)[j]
      {
        assert j < b ==> Base(s)[j] == s[j];
        assert 8 <= j < i ==> Extension(s)[j - 8] == s[j - 8 + b + 1];
      }
    }
  }

  // ---------------------------------------------------------------- by character codes

  /** The first dot of `s`, 0x2E, is at index `b`, or `s` has none and this is its end. */
  ghost predicate DotAt(s: seq<byte>, b: nat) {
    b <= |s| && (forall j :: 0 <= j < b ==> s[j] != 0x2E) && (b < |s| ==> s[b] == 0x2E)
  }

  /** `e` is `c`, or the capital letter for a small one. */
  ghost predicate IsCapital(e: byte, c: byte) { if 0x61 <= c <= 0x7A then e == c - 0x20 else e == c }

  /** The name field: what is before the dot from byte 0 on, what follows from byte 8 on, blanks between. */
  ghost predicate FieldFor(s: seq<byte>, b: nat, name: seq<byte>)
    requires b <= |s|
  {
    && |name| == 11
    && (forall j {:trigger name[j]} :: 0 <= j < 8 ==> if j < b then IsCapital(name[j], s[j]) else name[j] == 0x20)
    && (forall j {:trigger name[j]} :: 8 <= j < 11 ==>
          if b + j - 7 < |s| then IsCapital(name[j], s[b + j - 7]) else name[j] == 0x20)
  }

  /** One to eight printable characters, a dot and at most three more, or no dot. */
  ghost predicate Name83(s: seq<byte>, illegal: set<byte>, b: nat) {
    && 1 <= b <= 8 && |s| <= b + 4
    && forall j :: 0 <= j < |s| && j != b ==> 0x21 <= s[j] <= 0x7E && s[j] != 0x2E && s[j] !in illegal
  }

  ghost predicate NoSmallLetter(name: seq<byte>) { forall c :: c in name ==> !(0x61 <= c <= 0x7A) }

  lemma DotIsUnique(s: seq<byte>, b: nat)
    requires DotAt(s, b)
    ensures b == |Base(s)|
  {
    hide Base;
    assert forall j :: 0 <= j < |Base(s)| ==> Base(s)[j] == s[j] && Base(s)[j] in Base(s);
  }

  lemma Name83ByCodes(s: seq<byte>, illegal: set<byte>, b: nat)
    requires DotAt(s, b)
    ensures IsName83(s, illegal) <==> Name83(s, illegal, b)
  {
    DotIsUnique(s, b);
    hide Base;
    var x := Extension(s);
    assert forall j :: 0 <= j < b ==> Base(s)[j] == s[j];
    assert b < |s| ==> |x| == |s| - b - 1 && forall j :: 0 <= j < |x| ==> x[j] == s[b + 1 + j];
    if IsName83(s, illegal) {
      forall j | 0 <= j < |s| && j != b
        ensures 0x21 <= s[j] <= 0x7E && s[j] != 0x2E && s[j] !in illegal
      {
        assert LegalChar(if j < b then Base(s)[j] else x[j - b - 1], illegal);
      }
    }
  }

  lemma EncodeByCodes(s: seq<byte>, illegal: set<byte>, b: nat)
    requires IsName83(s, illegal) && DotAt(s, b)
    ensures FieldFor(s, b, Encode(s)) && NoSmallLetter(Encode(s))
  {
    DotIsUnique(s, b);
    UpperIsCapital();
    hide Base, Upper, IsCapital;
    var name, x := Encode(s), Extension(s);
    assert forall j :: 0 <= j < b ==> Base(s)[j] == s[j];
    assert b < |s| ==> |x| == |s| - b - 1 && forall j :: 0 <= j < |x| ==> x[j] == s[b + 1 + j];
    forall j | 0 <= j < 8
      ensures if j < b then IsCapital(name[j], s[j]) else name[j] == 0x20
    {
      assert name[j] == Padded(Base(s), 8)[j];
    }
    forall j | 8 <= j < 11
      ensures if b + j - 7 < |s| then IsCapital(name[j], s[b + j - 7]) else name[j] == 0x20
    {
      assert name[j] == Padded(x, 3)[j - 8];
    }
    hide Encode, Extension;
    forall c | c in name
      ensures !(0x61 <= c <= 0x7A)
    {
      var j :| 0 <= j < 11 && name[j] == c;
      NotSmall(s, b, name, j);
    }
  }

  lemma UpperIsCapital()
    ensures forall c: byte :: IsCapital(Upper(c), c)
  {
  }

  lemma NotSmall(s: seq<byte>, b: nat, name: seq<byte>, j: nat)
    requires b <= |s| && FieldFor(s, b, name) && j < 11
    ensures !(0x61 <= name[j] <= 0x7A)
  {
  }

  /** Which names are accepted, and what their encoding is. */
  lemma NameByCodes(s: seq<byte>, illegal: set<byte>)
    ensures forall b: nat :: DotAt(s, b) ==> (IsName83(s, illegal) <==> Name83(s, illegal, b))
    ensures IsName83(s, illegal) ==>
      NoSmallLetter(Encode(s)) && forall b: nat :: DotAt(s, b) ==> FieldFor(s, b, Encode(s))
  {
    hide Encode, Name83, FieldFor, NoSmallLetter;
    forall b: nat | DotAt(s, b)
      ensures IsName83(s, illegal) <==> Name83(s, illegal, b)
      ensures IsName83(s, illegal) ==> NoSmallLetter(Encode(s)) && FieldFor(s, b, Encode(s))
    {
      Name83ByCodes(s, illegal, b);
      if IsName83(s, illegal) {
        EncodeByCodes(s, illegal, b);
      }
    }
    assert DotAt(s, |Base(s)|);
  }

  /** Names that differ in the case of letters only have the same encoding. */
  lemma CaseDoesNotMatter(s: seq<byte>, t: seq<byte>, illegal: set<byte>)
    requires IsName83(s, illegal) && IsName83(t, illegal) && |t| == |s|
    requires forall i :: 0 <= i < |s| ==>
      t[i] == s[i] || (0x61 <= s[i] <= 0x7A && t[i] == s[i] - 0x20) || (0x61 <= t[i] <= 0x7A && s[i] == t[i] - 0x20)
    ensures Encode(s) == Encode(t)
  {
    var b := |Base(s)|;
    assert DotAt(s, b) && DotAt(t, b);
    EncodeByCodes(s, illegal, b);
    EncodeByCodes(t, illegal, b);
    hide Encode, Base, FieldFor, DotAt, NoSmallLetter;
    SameField(s, t, b, Encode(s), Encode(t));
  }

  lemma SameField(s: seq<byte>, t: seq<byte>, b: nat, e: seq<byte>, f: seq<byte>)
    requires b <= |s| == |t| && FieldFor(s, b, e) && FieldFor(t, b, f)
    requires forall i :: 0 <= i < |s| ==>
      t[i] == s[i] || (0x61 <= s[i] <= 0x7A && t[i] == s[i] - 0x20) || (0x61 <= t[i] <= 0x7A && s[i] == t[i] - 0x20)
    ensures e == f
  {
    assert forall j :: 0 <= j < 11 ==> e[j] == f[j];
  }

  /** make83Name: accept exactly the 8.3 names and store their encoding. */
  method Make83Name(str: seq<byte>, illegal: set<byte>, name: array<byte>) returns (ok: bool)
    requires 0 !in str && name.Length == 11
    modifies name
    ensures ok <==> IsName83(str, illegal)
    ensures ok ==> name[..] == Encode(str)
    // by character codes: what is accepted and what is stored
    ensures forall b: nat :: DotAt(str, b) ==>
      (ok <==> Name83(str, illegal, b)) && (ok ==> FieldFor(str, b, name[..]))
    ensures ok ==> NoSmallLetter(name[..])
  {
    hide Encoding, IsName83, Encode, Upper, Base, Extension, Name83, FieldFor, NoSmallLetter, DotAt;
    NameByCodes(str, illegal);
    var n, i := 7, 0;
    while i < 11
      invariant i <= 11 && forall j :: 0 <= j < i ==> name[j] == BLANK
    {
      name[i] := BLANK;
      i := i + 1;
    }
    i := 0;
    EncodeStart(str, illegal, name[..]);
    for k := 0 to |str|
      invariant 0 <= i && 0 <= n && Encoding(str, illegal, k, n, i, name[..])
    {
      var c := str[k];
      if c == DOT {
        EncodeDot(str, illegal, k, n, i, name[..]);
        if n == 10 {
          return false;
        }
        n, i := 10, 8;
      } else {
        EncodeChar(str, illegal, k, n, i, name[..]);
        if c in illegal || i > n || c < 0x21 || c > 0x7E {
          return false;
        }
        ghost var before := name[..];
        name[i] := Upper(c);
        assert name[..] == before[i := Upper(c)];
        i := i + 1;
      }
    }
    EncodeDone(str, illegal, n, i, name[..]);
    return name[0] != BLANK;
  }

  // ---------------------------------------------------------------- back to a string

  /** What dirName writes for the name bytes from index `i` on. */
  function Display(name: seq<byte>, i: nat): (r: seq<byte>)
    requires |name| == 11 && i <= 11
    ensures |r| <= (11 - i) + (if i <= 8 then 1 else 0)
    decreases 11 - i
  {
    if i == 11 then []
    else if name[i] == BLANK then Display(name, i + 1)
    else (if i == 8 then [DOT] else []) + [name[i]] + Display(name, i + 1)
  }

  /** dirName: the name as a C string; 13 bytes are enough. */
  method DirName(dir: Entry, name: array<byte>) returns (j: nat)
    requires name.Length >= 13
    modifies name
    ensures j <= 12 && name[..j] == Display(Name(dir), 0) && name[j] == 0
  {
    hide Display, Name;
    j := 0;
    var i := 0;
    ghost var n := Name(dir);
    NameBytes(dir);
    while i < 11
      invariant i <= 11 && j <= i + (if i <= 8 then 0 else 1)
      invariant name[..j] + Display(n, i) == Display(n, 0)
    {
      DisplayByte(n, i);
      if dir[i] != BLANK {
        if i == 8 {
          name[j] := DOT;
          j := j + 1;
        }
        name[j] := dir[i];
        j := j + 1;
      }
      i := i + 1;
    }
    DisplayEnd(n);
    name[j] := 0;
  }

  lemma NameBytes(e: Entry)
    ensures |Name(e)| == 11 && forall i :: 0 <= i < 11 ==> Name(e)[i] == e[i]
  {
  }

  lemma DisplayByte(name: seq<byte>, i: nat)
    requires |name| == 11 && i < 11
    ensures name[i] == BLANK ==> Display(name, i) == Display(name, i + 1)
    ensures name[i] != BLANK ==>
      Display(name, i) == (if i == 8 then [DOT, name[i]] else [name[i]]) + Display(name, i + 1)
  {
    if name[i] != BLANK {
      DisplayChar(name, i);
    }
  }

  /** `s` without blanks, 0x20. */
  ghost function NonBlank(s: seq<byte>): seq<byte> {
    if s == [] then [] else (if s[0] == 0x20 then [] else [s[0]]) + NonBlank(s[1..])
  }

  /** By character codes: the characters of the two parts, and a dot between them if the second begins with one. */
  lemma DisplayByCodes(name: seq<byte>)
    requires |name| == 11
    ensures Display(name, 0) == NonBlank(name[0..8]) + (if name[8] == 0x20 then [] else [0x2E]) + NonBlank(name[8..11])
  {
    hide Display, NonBlank;
    DisplayPart(name, 0, 8);
    DisplayPart(name, 9, 11);
    DisplayEnd(name);
    NonBlankFirst(name[8..11]);
    DisplayByte(name, 8);
    assert name[8..11][1..] == name[9..11] && name[8..11][0] == name[8];
    var c: seq<byte> := if name[8] == 0x20 then [] else [name[8]];
    Regroup(NonBlank(name[0..8]), if name[8] == 0x20 then [] else [0x2E], c, NonBlank(name[9..11]));
  }

  lemma Regroup(s: seq<byte>, t: seq<byte>, u: seq<byte>, v: seq<byte>)
    ensures s + (t + u + (v + [])) == s + t + (u + v)
  {
  }

  lemma NonBlankFirst(s: seq<byte>)
    requires s != []
    ensures NonBlank(s) == (if s[0] == 0x20 then [] else [s[0]]) + NonBlank(s[1..])
  {
  }

  lemma {:induction false} DisplayPart(name: seq<byte>, i: nat, n: nat)
    requires |name| == 11 && i <= n <= 11 && (n <= 8 || i > 8)
    ensures Display(name, i) == NonBlank(name[i..n]) + Display(name, n)
    decreases n - i
  {
    if i < n {
      DisplayPart(name, i + 1, n);
      assert name[i..n] == [name[i]] + name[i + 1..n] && name[i..n][1..] == name[i + 1..n];
      hide Display;
      DisplayByte(name, i);
    }
  }

  /** `s` in upper case, without a dot at its end. */
  function Canonical(s: seq<byte>): seq<byte> {
    if s != [] && s[|s| - 1] == DOT then UpperAll(s[..|s| - 1]) else UpperAll(s)
  }

  lemma {:induction false} DisplayBlanks(name: seq<byte>, i: nat, n: nat)
    requires |name| == 11 && i <= n <= 11 && forall j :: i <= j < n ==> name[j] == BLANK
    ensures Display(name, i) == Display(name, n)
    decreases n - i
  {
    if i < n {
      DisplayBlanks(name, i + 1, n);
    }
  }

  lemma DisplayChar(name: seq<byte>, i: nat)
    requires |name| == 11 && i < 11 && name[i] != BLANK
    ensures Display(name, i) == (if i == 8 then [DOT, name[i]] else [name[i]]) + Display(name, i + 1)
  {
    if i == 8 {
      assert [DOT] + [name[i]] == [DOT, name[i]];
    } else {
      assert [] + [name[i]] == [name[i]];
    }
  }

  lemma {:induction false} DisplayChars(name: seq<byte>, i: nat, n: nat)
    requires |name| == 11 && i <= n <= 11 && (n <= 8 || i > 8) && forall j :: i <= j < n ==> name[j] != BLANK
    ensures Display(name, i) == name[i..n] + Display(name, n)
    decreases n - i
  {
    hide Display;
    if i < n {
      DisplayChar(name, i);
      DisplayChars(name, i + 1, n);
      assert name[i..n] == [name[i]] + name[i + 1..n];
    } else {
      assert name[i..n] == [];
    }
  }

  /** Showing the encoding of a name gives the name in upper case, without a dot at its end. */
  lemma DisplayEncode(s: seq<byte>, illegal: set<byte>)
    requires IsName83(s, illegal)
    ensures Display(Encode(s), 0) == Canonical(s)
  {
    hide Display, Encode, UpperAll, Canonical, Base, Extension;
    var b, x, e := Base(s), Extension(s), Encode(s);
    EncodedBytes(s, illegal);
    DisplayChars(e, 0, |b|);
    DisplayBlanks(e, |b|, 8);
    DisplayBlanks(e, 8 + |x|, 11);
    DisplayEnd(e);
    NoDotInExtension(s, illegal);
    CanonicalParts(s);
    if x == [] {
      assert UpperAll(b) + [] == UpperAll(b);
    } else {
      DisplayChar(e, 8);
      DisplayChars(e, 9, 8 + |x|);
      assert [DOT, e[8]] + (e[9..8 + |x|] + []) == [DOT] + e[8..8 + |x|];
      assert UpperAll(b) + ([DOT] + UpperAll(x)) == UpperAll(b) + [DOT] + UpperAll(x);
    }
  }

  /** The bytes of an encoding: upper-case characters, then blanks, in both parts. */
  lemma EncodedBytes(s: seq<byte>, illegal: set<byte>)
    requires IsName83(s, illegal)
    ensures var b, x, e := Base(s), Extension(s), Encode(s);
      && e[0..|b|] == UpperAll(b) && e[8..8 + |x|] == UpperAll(x)
      && (forall j :: 0 <= j < |b| ==> e[j] != BLANK)
      && (forall j :: |b| <= j < 8 ==> e[j] == BLANK)
      && (forall j :: 8 <= j < 8 + |x| ==> e[j] != BLANK)
      && (forall j :: 8 + |x| <= j < 11 ==> e[j] == BLANK)
  {
    hide Base, Extension;
    var b, x, e := Base(s), Extension(s), Encode(s);
    forall j | 0 <= j < |b|
      ensures e[j] == Upper(b[j]) != BLANK
    {
      assert LegalChar(b[j], illegal);
    }
    forall j | 8 <= j < 8 + |x|
      ensures e[j] == Upper(x[j - 8]) != BLANK
    {
      assert LegalChar(x[j - 8], illegal);
    }
  }

  lemma DisplayEnd(name: seq<byte>)
    requires |name| == 11
    ensures Display(name, 11) == []
  {
  }

  /** The upper-case name, put together from its parts. */
  lemma CanonicalParts(s: seq<byte>)
    requires s != [] && DOT !in Extension(s)
    ensures Canonical(s) ==
      if Extension(s) == [] then UpperAll(Base(s)) else UpperAll(Base(s)) + [DOT] + UpperAll(Extension(s))
  {
    SplitAtDot(s);
    hide UpperAll, Base, Extension;
    var b, x := Base(s), Extension(s);
    LastNotDot(b);
    LastNotDot(x);
    if |b| < |s| && x != [] {
      assert s[|s| - 1] == x[|x| - 1];
      UpperJoin(b, x);
    }
  }

  /** A name is its base and, behind a dot, its extension. */
  lemma SplitAtDot(s: seq<byte>)
    ensures if |Base(s)| == |s| then s == Base(s) && Extension(s) == []
            else s == Base(s) + [DOT] + Extension(s) && s[..|s| - 1] == (Base(s) + [DOT] + Extension(s))[..|s| - 1]
    ensures |Base(s)| < |s| && Extension(s) == [] ==> s[..|s| - 1] == Base(s) && s[|s| - 1] == DOT
  {
    hide Base;
  }

  lemma LastNotDot(t: seq<byte>)
    requires DOT !in t
    ensures t != [] ==> t[|t| - 1] != DOT
  {
    assert t != [] ==> t[|t| - 1] in t;
  }

  lemma UpperJoin(b: seq<byte>, x: seq<byte>)
    ensures UpperAll(b + [DOT] + x) == UpperAll(b) + [DOT] + UpperAll(x)
  {
  }

  /** Encoding, showing and encoding again is encoding: the codec's round trip. */
  lemma RoundTrip(s: seq<byte>, illegal: set<byte>)
    requires IsName83(s, illegal)
    requires forall c :: c in illegal ==> !(0x41 <= c <= 0x5A)
    ensures IsName83(Display(Encode(s), 0), illegal)
    ensures Encode(Display(Encode(s), 0)) == Encode(s)
  {
    hide Display, UpperAll, Base, Extension, Canonical;
    DisplayEncode(s, illegal);
    NoDotInExtension(s, illegal);
    CanonicalParts(s);
    var b, x, c := Base(s), Extension(s), Canonical(s);
    UpperLegal(b, illegal);
    UpperLegal(x, illegal);
    if x == [] {
      assert c == UpperAll(b) + [];
      Parts(UpperAll(b), []);
      UpperTwice(b);
    } else {
      Parts(UpperAll(b), UpperAll(x));
      UpperTwice(b);
      UpperTwice(x);
    }
  }

  lemma NoDotInExtension(s: seq<byte>, illegal: set<byte>)
    requires IsName83(s, illegal)
    ensures DOT !in Extension(s) && s != []
  {
    forall j | 0 <= j < |Extension(s)|
      ensures Extension(s)[j] != DOT
    {
      assert LegalChar(Extension(s)[j], illegal);
    }
  }

  lemma UpperLegal(s: seq<byte>, illegal: set<byte>)
    requires AllLegal(s, illegal) && forall c :: c in illegal ==> !(0x41 <= c <= 0x5A)
    ensures AllLegal(UpperAll(s), illegal) && DOT !in UpperAll(s)
  {
    forall j | 0 <= j < |s|
      ensures LegalChar(UpperAll(s)[j], illegal)
    {
      assert LegalChar(s[j], illegal);
    }
  }

  lemma UpperTwice(s: seq<byte>)
    ensures UpperAll(UpperAll(s)) == UpperAll(s)
  {
  }

  /** A name put together from parts without dots has those parts. */
  lemma {:induction false} Parts(b: seq<byte>, x: seq<byte>)
    requires DOT !in b
    ensures Base(b) == b && Extension(b) == []
    ensures Base(b + [DOT] + x) == b && Extension(b + [DOT] + x) == x
  {
    if b == [] {
      assert b + [DOT] + x == [DOT] + x;
    } else {
      Parts(b[1..], x);
      assert (b + [DOT] + x)[1..] == b[1..] + [DOT] + x;
      assert (b + [DOT] + x)[0] == b[0] && b[0] in b;
      assert b == [b[0]] + b[1..];
    }
  }

  /** The first byte of an encoded name marks neither a free nor a deleted nor a dot entry. */
  lemma EncodedFirstByte(s: seq<byte>, illegal: set<byte>)
    requires IsName83(s, illegal)
    ensures Encode(s)[0] != NAME_FREE && Encode(s)[0] != NAME_DELETED && Encode(s)[0] != DOT && Encode(s)[0] != BLANK
  {
    assert LegalChar(Base(s)[0], illegal);
    assert Encode(s)[0] == Upper(Base(s)[0]);
  }
}
