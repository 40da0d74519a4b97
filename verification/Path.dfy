/** Splitting a path into the components that walkPath visits. */
module Path {
  import opened Bytes

  const SLASH: byte := 0x2F
  const MAX_COMPONENT: nat := 12

  /** `s` without one leading separator. */
  function Unrooted(s: seq<byte>): seq<byte> {
    if s != [] && s[0] == SLASH then s[1..] else s
  }

  /** The part of `s` before its first separator. */
  function Segment(s: seq<byte>): (r: seq<byte>)
    ensures r <= s && SLASH !in r
    ensures |r| < |s| ==> s[|r|] == SLASH
  {
    if s == [] || s[0] == SLASH then [] else [s[0]] + Segment(s[1..])
  }

  /** The first component of `s`: at most twelve characters of its first segment. */
  function First(s: seq<byte>): (r: seq<byte>)
    ensures |r| <= MAX_COMPONENT && SLASH !in r
  {
    var g := Segment(Unrooted(s));
    if |g| > MAX_COMPONENT then g[..MAX_COMPONENT] else g
  }

  /** What is left of `s` behind its first component and one separator. */
  function Rest(s: seq<byte>): (r: seq<byte>)
    ensures |r| <= |s| && (r != [] ==> |r| < |s|)
  {
    Unrooted(Unrooted(s)[|First(s)|..])
  }

  /** The components that repeated calls of getNextPathComponent yield. */
  function Walk(s: seq<byte>): (r: seq<seq<byte>>)
    ensures |r| > 0
    decreases |s|
  {
    [First(s)] + (if Rest(s) == [] then [] else Walk(Rest(s)))
  }

  /** The path made of these components. */
  function Join(parts: seq<seq<byte>>): seq<byte> {
    if parts == [] then [] else [SLASH] + parts[0] + Join(parts[1..])
  }

  /** A name that can stand in a path. */
  predicate IsPart(c: seq<byte>) {
    c != [] && SLASH !in c
  }

  lemma {:induction false} SegmentOf(c: seq<byte>, t: seq<byte>)
    requires SLASH !in c && (t == [] || t[0] == SLASH)
    ensures Segment(c + t) == c
  {
    if c == [] {
      assert c + t == t;
    } else {
      assert (c + t)[1..] == c[1..] + t;
      SegmentOf(c[1..], t);
    }
  }

  /** The first component of a joined path, with or without its leading separator, and what follows. */
  lemma JoinedFirst(c: seq<byte>, t: seq<byte>)
    requires IsPart(c) && (t == [] || t[0] == SLASH)
    ensures Unrooted([SLASH] + c + t) == c + t == Unrooted(c + t)
    ensures |c| <= MAX_COMPONENT ==> First([SLASH] + c + t) == c && Rest([SLASH] + c + t) == Unrooted(t)
    ensures |c| > MAX_COMPONENT ==> First([SLASH] + c + t) != c
    ensures First(c + t) == First([SLASH] + c + t) && Rest(c + t) == Rest([SLASH] + c + t)
  {
    hide Segment;
    var s := [SLASH] + c + t;
    assert s[1..] == c + t;
    assert (c + t)[0] == c[0] && c[0] in c;
    SegmentOf(c, t);
    if |c| <= MAX_COMPONENT {
      assert (c + t)[|c|..] == t;
    } else {
      assert |First(s)| == MAX_COMPONENT;
    }
  }

  lemma WalkStep(s: seq<byte>, s': seq<byte>)
    requires First(s) == First(s') && Rest(s) == Rest(s')
    ensures Walk(s) == Walk(s')
  {
  }

  /**
   * Splitting undoes joining exactly for components of at most twelve characters; a longer one is
   * broken into pieces. The leading separator may be missing.
   */
  lemma {:induction false} WalkJoin(parts: seq<seq<byte>>)
    requires parts != [] && forall i :: 0 <= i < |parts| ==> IsPart(parts[i])
    ensures Walk(Join(parts)) == parts <==> forall i :: 0 <= i < |parts| ==> |parts[i]| <= MAX_COMPONENT
    ensures Walk(Join(parts)[1..]) == Walk(Join(parts))
  {
    hide Segment, First, Rest, Unrooted;
    var c, t := parts[0], Join(parts[1..]);
    JoinedFirst(c, t);
    assert Join(parts) == [SLASH] + c + t;
    assert ([SLASH] + c + t)[1..] == c + t;
    WalkStep(c + t, [SLASH] + c + t);
    assert parts == [c] + parts[1..];
    if |c| <= MAX_COMPONENT && |parts| > 1 {
      WalkJoin(parts[1..]);
      UnrootedJoin(parts[1..]);
      assert Walk(Join(parts)) == [c] + Walk(t);
      assert forall i :: 0 <= i < |parts| - 1 ==> parts[1..][i] == parts[i + 1];
      TailsAgree(c, Walk(t), parts[1..]);
    } else if |c| <= MAX_COMPONENT {
      assert t == [] && Unrooted(t) == [] by {
        NothingUnrooted();
      }
    } else {
      assert Walk(Join(parts))[0] == First(Join(parts)) != parts[0];
    }
  }

  lemma NothingUnrooted()
    ensures Unrooted([]) == []
  {
  }

  lemma UnrootedJoin(parts: seq<seq<byte>>)
    requires parts != [] && IsPart(parts[0])
    ensures Unrooted(Join(parts)) == Join(parts)[1..] != []
  {
  }

  lemma TailsAgree(c: seq<byte>, s: seq<seq<byte>>, t: seq<seq<byte>>)
    ensures [c] + s == [c] + t <==> s == t
  {
    if [c] + s == [c] + t {
      assert ([c] + s)[1..] == s && ([c] + t)[1..] == t;
    }
  }

  /** /foo/bar */
  lemma TwoComponents()
    ensures Walk([0x2F, 0x66, 0x6F, 0x6F, 0x2F, 0x62, 0x61, 0x72]) == [[0x66, 0x6F, 0x6F], [0x62, 0x61, 0x72]]
  {
    var parts: seq<seq<byte>> := [[0x66, 0x6F, 0x6F], [0x62, 0x61, 0x72]];
    assert Join(parts[1..]) == [0x2F, 0x62, 0x61, 0x72];
    assert Join(parts) == [0x2F, 0x66, 0x6F, 0x6F, 0x2F, 0x62, 0x61, 0x72];
    WalkJoin(parts);
  }

  /** getNextPathComponent: `path` is a C string without its terminator; `buffer` receives one. */
  method GetNextPathComponent(path: seq<byte>, from: nat, buffer: array<byte>) returns (more: bool, to: nat, n: nat)
    requires 0 !in path && from <= |path| && buffer.Length == MAX_COMPONENT + 1
    modifies buffer
    ensures n < buffer.Length && buffer[..n] == First(path[from..]) && buffer[n] == 0 && 0 !in buffer[..n]
    ensures from <= to <= |path| && path[to..] == Rest(path[from..])
    ensures more <==> Rest(path[from..]) != []
    // in characters: one slash in front is skipped, at most twelve others are copied, the next slash is skipped
    ensures var start := if from < |path| && path[from] == 0x2F then from + 1 else from;
      && start + n <= |path| && buffer[..n] == path[start..start + n] && n <= 12 && 0x2F !in buffer[..n]
      && (n == 12 || start + n == |path| || path[start + n] == 0x2F)
      && to == (if start + n < |path| && path[start + n] == 0x2F then start + n + 1 else start + n)
      && (more <==> to < |path|)
  {
    hide Segment, First, Rest, Unrooted;
    var offset := Skip(path, from);
    n := Copy(path, offset, buffer);
    FirstRest(path[from..], n);
    assert path[offset + n..] == path[offset..][n..];
    buffer[n] := 0;
    to := Skip(path, offset + n);
    more := to < |path|;
  }

  /** Step over one separator. */
  method Skip(path: seq<byte>, from: nat) returns (to: nat)
    requires from <= |path|
    ensures from <= to <= |path| && path[to..] == Unrooted(path[from..])
    ensures to == if from < |path| && path[from] == 0x2F then from + 1 else from
  {
    to := if from < |path| && path[from] == SLASH then from + 1 else from;
  }

  /** The copying loop: up to twelve characters of the segment at `from`. */
  method Copy(path: seq<byte>, from: nat, buffer: array<byte>) returns (n: nat)
    requires 0 !in path && from <= |path| && buffer.Length == MAX_COMPONENT + 1
    modifies buffer
    ensures n <= MAX_COMPONENT && from + n <= |path| && n <= |Segment(path[from..])|
    ensures n == MAX_COMPONENT || from + n == |path| || path[from + n] == SLASH
    ensures buffer[..n] == path[from..][..n] && 0 !in buffer[..n]
  {
    n := 0;
    while n < MAX_COMPONENT && from + n < |path| && path[from + n] != SLASH
      invariant 0 <= n <= MAX_COMPONENT && from + n <= |path| && n <= |Segment(path[from..])|
      invariant forall j :: 0 <= j < n ==> buffer[j] == path[from + j]
    {
      SegmentGoesOn(path[from..], n);
      buffer[n] := path[from + n];
      n := n + 1;
    }
    assert forall j :: 0 <= j < n ==> buffer[j] == path[from + j] && path[from + j] in path;
  }

  /** The copying loop has stopped behind the first component. */
  lemma FirstRest(s: seq<byte>, i: nat)
    requires i <= |Segment(Unrooted(s))| && i <= MAX_COMPONENT
    requires i == MAX_COMPONENT || i == |Unrooted(s)| || Unrooted(s)[i] == SLASH
    ensures First(s) == Unrooted(s)[..i] && Rest(s) == Unrooted(Unrooted(s)[i..])
  {
    NoneInside(Unrooted(s), i);
  }

  lemma NoneInside(u: seq<byte>, i: nat)
    ensures i < |Segment(u)| ==> i < |u| && u[i] != SLASH
  {
    assert i < |Segment(u)| ==> Segment(u)[i] in Segment(u);
  }

  lemma {:induction false} SegmentGoesOn(u: seq<byte>, i: nat)
    requires i <= |Segment(u)| && i < |u| && u[i] != SLASH
    ensures i < |Segment(u)|
  {
  }
}
