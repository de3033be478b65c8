/**
 * OSC addresses as slash-delimited paths. An address is normalised by splitting it on
 * '/' and keeping the non-empty pieces, so a trailing slash is collapsed (`/bla/` is
 * `/bla`) and `/` is the root, the empty sequence of segments.
 */
module Address {

  type Path = seq<string>

  /** A segment as produced by splitting: non-empty and free of '/'. */
  predicate IsSegment(s: string) {
    |s| > 0 && '/' !in s
  }

  predicate WellFormed(p: Path) {
    forall i :: 0 <= i < |p| ==> IsSegment(p[i])
  }

  /** The segment under construction, once a '/' or the end of the string closes it. */
  function Flush(cur: string): (r: Path)
    ensures r == [] <==> cur == []
    ensures cur != [] ==> r == [cur]
  {
    if cur == [] then [] else [cur]
  }

  /** Splits `a`, given the characters `cur` already read of the current segment. */
  function SegmentsFrom(a: string, cur: string): (r: Path)
    ensures forall i :: 0 <= i < |r| ==> r[i] != []
    decreases |a|
  {
    if a == [] then Flush(cur)
    else if a[0] == '/' then Flush(cur) + SegmentsFrom(a[1..], [])
    else SegmentsFrom(a[1..], cur + [a[0]])
  }

  /** The normalised form of an address: its non-empty '/'-separated segments, in order. */
  function Segments(a: string): (r: Path)
    ensures WellFormed(r)
  {
    SegmentsFromWellFormed(a, []);
    SegmentsFrom(a, [])
  }

  /** Writes a path back as an address: `/` for the root, `/s1/s2...` otherwise. */
  function Canonical(p: Path): (a: string)
    ensures |a| > 0 && a[0] == '/'
  {
    if p == [] then "/" else Join(p)
  }

  function Join(p: Path): string {
    if p == [] then "" else "/" + p[0] + Join(p[1..])
  }

  lemma {:induction false} SegmentsFromWellFormed(a: string, cur: string)
    requires '/' !in cur
    ensures WellFormed(SegmentsFrom(a, cur))
    decreases |a|
  {
    if a == [] {
    } else if a[0] == '/' {
      SegmentsFromWellFormed(a[1..], []);
    } else {
      SegmentsFromWellFormed(a[1..], cur + [a[0]]);
    }
  }

  /** Splitting at a '/' that starts `b`: the segments of `a` followed by those after the '/'. */
  lemma {:induction false} SegmentsFromAppend(a: string, b: string, cur: string)
    requires |b| > 0 && b[0] == '/'
    ensures SegmentsFrom(a + b, cur) == SegmentsFrom(a, cur) + SegmentsFrom(b[1..], [])
    decreases |a|
  {
    if a == [] {
      assert a + b == b;
    } else {
      assert (a + b)[0] == a[0];
      assert (a + b)[1..] == a[1..] + b;
      if a[0] == '/' {
        SegmentsFromAppend(a[1..], b, []);
      } else {
        SegmentsFromAppend(a[1..], b, cur + [a[0]]);
      }
    }
  }

  /** A string without '/' completes the current segment. */
  lemma {:induction false} SegmentsFromPlain(s: string, cur: string)
    requires '/' !in s && |cur + s| > 0
    ensures SegmentsFrom(s, cur) == [cur + s]
    decreases |s|
  {
    if s == [] {
      assert cur + s == cur;
    } else {
      assert s[0] != '/' by { assert s[0] in s; }
      assert '/' !in s[1..] by {
        forall k | 0 <= k < |s[1..]| ensures s[1..][k] != '/' { assert s[1..][k] == s[k + 1]; }
      }
      SegmentsFromPlain(s[1..], cur + [s[0]]);
      assert (cur + [s[0]]) + s[1..] == cur + s;
    }
  }

  /** A trailing slash is collapsed: `a + "/"` names the same node as `a`. */
  lemma TrailingSlash(a: string)
    ensures Segments(a + "/") == Segments(a)
  {
    SegmentsFromAppend(a, "/", []);
    assert "/"[1..] == [];
  }

  /** Splitting a joined path gives the path back. */
  lemma {:induction false} SegmentsJoin(p: Path)
    requires WellFormed(p)
    ensures Segments(Join(p)) == p
    decreases |p|
  {
    if p != [] {
      var rest := Join(p[1..]);
      assert WellFormed(p[1..]) by {
        forall i | 0 <= i < |p[1..]| ensures IsSegment(p[1..][i]) { assert p[1..][i] == p[i + 1]; }
      }
      SegmentsJoin(p[1..]);
      assert IsSegment(p[0]);
      assert Join(p) == "/" + (p[0] + rest);
      calc {
        Segments(Join(p));
        SegmentsFrom("/" + (p[0] + rest), []);
        { assert ("/" + (p[0] + rest))[1..] == p[0] + rest; }
        SegmentsFrom(p[0] + rest, []);
      }
      if rest == [] {
        assert p[0] + rest == p[0];
        SegmentsFromPlain(p[0], []);
        assert [] + p[0] == p[0];
      } else {
        assert rest[0] == '/';
        SegmentsFromAppend(p[0], rest, []);
        SegmentsFromPlain(p[0], []);
        assert [] + p[0] == p[0];
        assert rest[1..] + [] == rest[1..];
        assert SegmentsFrom(rest[1..], []) == SegmentsFrom(rest, []);
      }
    }
  }

  /** `Canonical` is a right inverse of `Segments` on well-formed paths. */
  lemma SegmentsCanonical(p: Path)
    requires WellFormed(p)
    ensures Segments(Canonical(p)) == p
  {
    if p == [] {
      assert "/"[1..] == [];
    } else {
      SegmentsJoin(p);
    }
  }

  /** Normalising twice is normalising once. */
  lemma NormaliseIdempotent(a: string)
    ensures Segments(Canonical(Segments(a))) == Segments(a)
  {
    SegmentsCanonical(Segments(a));
  }

  /** Appending `/name` to an address adds exactly one segment. */
  lemma SegmentsChild(a: string, name: string)
    requires IsSegment(name)
    ensures Segments(a + "/" + name) == Segments(a) + [name]
  {
    assert a + "/" + name == a + ("/" + name);
    SegmentsFromAppend(a, "/" + name, []);
    assert ("/" + name)[1..] == name;
    SegmentsFromPlain(name, []);
    assert [] + name == name;
  }

  /** The addresses `Canonical(p)` and `Canonical(p) + "/"` both name the node at `p`. */
  lemma SegmentsOf(p: Path, a: string)
    requires WellFormed(p)
    requires a == Canonical(p) || a == Canonical(p) + "/"
    ensures Segments(a) == p
  {
    SegmentsCanonical(p);
    TrailingSlash(Canonical(p));
  }
}
