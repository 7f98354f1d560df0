/**
 * Slash-separated paths as JavaScript's String.prototype.split('/') and
 * Array.prototype.join('/') see them: splitting always yields at least one
 * piece, empty pieces stand for leading, trailing or repeated slashes, and
 * joining puts the slashes back.
 */
module PathSegments {
  import opened Filtering

  /** True when `p` contains no slash. */
  predicate NoSlash(p: string)
  {
    forall i :: 0 <= i < |p| ==> p[i] != '/'
  }

  /** `s.split('/')`. */
  function Split(s: string): (r: seq<string>)
    ensures |r| >= 1
    ensures forall k :: 0 <= k < |r| ==> NoSlash(r[k])
    decreases |s|
  {
    if |s| == 0 then [""]
    else
      var rest := Split(s[1..]);
      if s[0] == '/' then [""] + rest
      else [[s[0]] + rest[0]] + rest[1..]
  }

  /** `parts.join('/')`. */
  function Join(parts: seq<string>): (s: string)
    requires |parts| >= 1
    ensures |s| >= |parts| - 1
    decreases |parts|
  {
    if |parts| == 1 then parts[0] else parts[0] + "/" + Join(parts[1..])
  }

  /** Joining a piece in front of at least one more. */
  lemma JoinCons(p: string, rest: seq<string>)
    requires |rest| >= 1
    ensures Join([p] + rest) == p + "/" + Join(rest)
  {
    assert ([p] + rest)[1..] == rest;
  }

  /** Joining the pieces of a split gives the string back. */
  lemma {:induction false} JoinSplit(s: string)
    ensures Join(Split(s)) == s
    decreases |s|
  {
    if |s| > 0 {
      var rest := Split(s[1..]);
      JoinSplit(s[1..]);
      if s[0] == '/' {
        assert Split(s) == [""] + rest;
        assert ([""] + rest)[1..] == rest;
        assert s == "/" + s[1..];
      } else {
        var parts := Split(s);
        assert parts == [[s[0]] + rest[0]] + rest[1..];
        if |rest| == 1 {
          assert s == [s[0]] + s[1..];
        } else {
          assert parts[1..] == rest[1..];
          assert Join(rest) == rest[0] + "/" + Join(rest[1..]);
          assert s == [s[0]] + s[1..];
        }
      }
    }
  }

  /** Splitting a string that starts with a slash-free piece `p`. */
  lemma {:induction false} SplitPrefix(p: string, s: string)
    requires NoSlash(p)
    ensures Split(p + s) == [p + Split(s)[0]] + Split(s)[1..]
    decreases |p|
  {
    if |p| > 0 {
      SplitPrefix(p[1..], s);
      assert (p + s)[1..] == p[1..] + s;
      assert p + Split(s)[0] == [p[0]] + (p[1..] + Split(s)[0]);
    } else {
      assert p + s == s;
      assert p + Split(s)[0] == Split(s)[0];
      assert Split(s) == [Split(s)[0]] + Split(s)[1..];
    }
  }

  /** Splitting slash-free pieces joined with slashes gives the pieces back. */
  lemma {:induction false} SplitJoin(parts: seq<string>)
    requires |parts| >= 1
    requires forall k :: 0 <= k < |parts| ==> NoSlash(parts[k])
    ensures Split(Join(parts)) == parts
    decreases |parts|
  {
    if |parts| == 1 {
      SplitPrefix(parts[0], "");
      assert parts[0] + "" == parts[0];
    } else {
      var tail := Join(parts[1..]);
      SplitJoin(parts[1..]);
      assert ("/" + tail)[1..] == tail;
      assert Split("/" + tail) == [""] + parts[1..];
      assert Join(parts) == parts[0] + ("/" + tail);
      SplitPrefix(parts[0], "/" + tail);
      assert parts[0] + "" == parts[0];
      assert parts == [parts[0]] + parts[1..];
    }
  }

  /** A slash splits a path into the pieces of its two sides. */
  lemma {:induction false} SplitAppend(a: string, b: string)
    ensures Split(a + "/" + b) == Split(a) + Split(b)
    decreases |a|
  {
    var s := a + "/" + b;
    if |a| == 0 {
      assert s == "/" + b;
      assert s[1..] == b;
    } else {
      var t := a[1..] + "/" + b;
      assert s[0] == a[0] && s[1..] == t;
      SplitAppend(a[1..], b);
      var x, y := Split(a[1..]), Split(b);
      assert Split(t) == x + y;
      if a[0] == '/' {
        assert Split(s) == [""] + (x + y);
        assert Split(a) == [""] + x;
      } else {
        assert Split(s) == [[a[0]] + (x + y)[0]] + (x + y)[1..];
        assert (x + y)[0] == x[0];
        assert (x + y)[1..] == x[1..] + y;
        assert Split(a) == [[a[0]] + x[0]] + x[1..];
      }
    }
  }

  /** JavaScript's `Boolean` applied to a string: true for every string but the empty one. */
  predicate NonEmpty(p: string) { |p| > 0 }

  /** `s.split('/').filter(Boolean)`: the non-empty pieces. */
  function Segments(s: string): (r: seq<string>)
    ensures forall k :: 0 <= k < |r| ==> |r[k]| > 0 && NoSlash(r[k])
  {
    var r := Filter(Split(s), NonEmpty);
    assert forall k :: 0 <= k < |r| ==> r[k] in Split(s) by {
      forall k | 0 <= k < |r| ensures r[k] in Split(s) {
        FilterMembership(Split(s), NonEmpty, r[k]);
      }
    }
    r
  }

  /** `s.split('/').filter(Boolean).includes(name)`. */
  predicate HasSegment(s: string, name: string)
  {
    name in Segments(s)
  }

  /** A non-empty name is a segment exactly when it is one of the split pieces, compared whole. */
  lemma SegmentIsWholePiece(s: string, name: string)
    requires |name| > 0
    ensures HasSegment(s, name) <==> exists k :: 0 <= k < |Split(s)| && Split(s)[k] == name
  {
    FilterMembership(Split(s), NonEmpty, name);
    assert Segments(s) == Filter(Split(s), NonEmpty);
    assert NonEmpty(name);
    assert HasSegment(s, name) <==> name in Split(s);
    if name in Split(s) {
      var k :| 0 <= k < |Split(s)| && Split(s)[k] == name;
    }
  }

  /** Doubling a slash adds only an empty piece, which the filter drops. */
  lemma RepeatedSlashIgnored(a: string, b: string)
    ensures Segments(a + "//" + b) == Segments(a + "/" + b)
  {
    assert a + "//" + b == a + "/" + ("/" + b);
    SplitAppend(a, "/" + b);
    SplitAppend("", b);
    assert "" + "/" + b == "/" + b;
    SplitAppend(a, b);
    FilterAppend(Split(a), [""] + Split(b), NonEmpty);
    FilterAppend([""], Split(b), NonEmpty);
    FilterAppend(Split(a), Split(b), NonEmpty);
  }
}
