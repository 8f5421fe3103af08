/**
 * Splitting a request path at '/' and joining segments back together; used to show
 * which inputs a resource path built by string interpolation identifies.
 */
module PathSegments {

  predicate NoSlash(s: string)
  {
    '/' !in s
  }

  /** The segments of p between '/' separators (n separators give n + 1 segments). */
  function Split(p: string): (segments: seq<string>)
    ensures |segments| >= 1
    decreases |p|
  {
    if p == [] then [""]
    else
      var rest := Split(p[1..]);
      if p[0] == '/' then [""] + rest else [[p[0]] + rest[0]] + rest[1..]
  }

  /** The segments written out with a '/' between consecutive ones. */
  function Join(segments: seq<string>): string
    requires |segments| >= 1
    decreases |segments|
  {
    if |segments| == 1 then segments[0] else segments[0] + "/" + Join(segments[1..])
  }

  lemma ConcatAssoc(a: string, b: string, c: string)
    ensures (a + b) + c == a + (b + c)
  {
  }

  lemma {:induction false} SplitNoSlash(x: string)
    requires NoSlash(x)
    ensures Split(x) == [x]
    decreases |x|
  {
    if x != [] {
      SplitNoSlash(x[1..]);
      assert x == [x[0]] + x[1..];
    }
  }

  /** A leading slash-free segment followed by '/' splits off as the first segment. */
  lemma {:induction false} SplitCons(x: string, y: string)
    requires NoSlash(x)
    ensures Split(x + "/" + y) == [x] + Split(y)
    decreases |x|
  {
    var p := x + "/" + y;
    if x == [] {
      assert p[1..] == y;
    } else {
      assert p[1..] == x[1..] + "/" + y;
      SplitCons(x[1..], y);
      assert x == [x[0]] + x[1..];
    }
  }

  /** No segment contains the separator. */
  lemma {:induction false} SplitSegmentsNoSlash(p: string)
    ensures forall i :: 0 <= i < |Split(p)| ==> NoSlash(Split(p)[i])
    decreases |p|
  {
    if p != [] {
      SplitSegmentsNoSlash(p[1..]);
    }
  }

  /** Joining the segments of a path gives the path back. */
  lemma {:induction false} JoinSplit(p: string)
    ensures Join(Split(p)) == p
    decreases |p|
  {
    if p != [] {
      var rest := Split(p[1..]);
      JoinSplit(p[1..]);
      if p[0] == '/' {
        assert ([""] + rest)[1..] == rest;
      } else if |rest| > 1 {
        var segments := [[p[0]] + rest[0]] + rest[1..];
        assert segments[1..] == rest[1..];
        assert Join(rest) == rest[0] + "/" + Join(rest[1..]);
      }
      assert p == [p[0]] + p[1..];
    }
  }

  /** Joining one more segment puts a '/' and that segment at the end. */
  lemma {:induction false} JoinAppend(segments: seq<string>, last: string)
    requires |segments| >= 1
    ensures Join(segments + [last]) == Join(segments) + "/" + last
    decreases |segments|
  {
    var longer := segments + [last];
    if |segments| == 1 {
      assert longer[1..] == [last];
    } else {
      assert longer[1..] == segments[1..] + [last];
      JoinAppend(segments[1..], last);
    }
  }

  /** Joining two runs of segments puts a '/' between their joins. */
  lemma {:induction false} JoinConcat(front: seq<string>, back: seq<string>)
    requires |front| >= 1 && |back| >= 1
    ensures Join(front + back) == Join(front) + "/" + Join(back)
    decreases |front|
  {
    var both := front + back;
    if |front| == 1 {
      assert both[1..] == back;
    } else {
      assert both[1..] == front[1..] + back;
      JoinConcat(front[1..], back);
    }
  }

  /** Splitting what Join built from slash-free segments gives the segments back. */
  lemma {:induction false} SplitJoin(segments: seq<string>)
    requires |segments| >= 1
    requires forall i :: 0 <= i < |segments| ==> NoSlash(segments[i])
    ensures Split(Join(segments)) == segments
    decreases |segments|
  {
    if |segments| == 1 {
      SplitNoSlash(segments[0]);
    } else {
      SplitJoin(segments[1..]);
      SplitCons(segments[0], Join(segments[1..]));
      assert segments == [segments[0]] + segments[1..];
    }
  }
}
