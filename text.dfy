/** The three string operations the loader and the aggregator rely on: joining fields with a
    single space (`' '.join`), splitting at every single space (`str.split(' ')`)
    and collapsing runs of spaces to one (`re.sub(' +', ' ', ...)`). */
module Text {

  const Space: char := ' '

  /** No space is immediately followed by another space. */
  predicate NoDoubleSpaces(s: string) {
    forall i :: 0 <= i < |s| - 1 ==> !(s[i] == Space && s[i + 1] == Space)
  }

  /** The characters of `s` other than spaces, in order. */
  function NonSpaces(s: string): string {
    if |s| == 0 then ""
    else (if s[0] == Space then "" else [s[0]]) + NonSpaces(s[1..])
  }

  /** The number of spaces in `s`. */
  function SpaceCount(s: string): nat {
    if |s| == 0 then 0
    else (if s[0] == Space then 1 else 0) + SpaceCount(s[1..])
  }

  /** `' '.join(fields)`: the fields with one space between neighbours. The
      first field starts the line, and when no field holds a space the line has
      exactly one space per pair of neighbouring fields. */
  function Join(fields: seq<string>): (line: string)
    ensures |fields| > 0 ==> fields[0] <= line
    ensures (forall i :: 0 <= i < |fields| ==> Space !in fields[i]) ==>
      SpaceCount(line) == if |fields| == 0 then 0 else |fields| - 1
  {
    if |fields| == 0 then ""
    else if |fields| == 1 then
      SpaceFreeCount(fields[0]);
      fields[0]
    else
      SpaceCountAppend(fields[0], [Space]);
      SpaceCountAppend(fields[0] + [Space], Join(fields[1..]));
      SpaceFreeCount(fields[0]);
      fields[0] + [Space] + Join(fields[1..])
  }

  lemma {:induction false} SpaceCountAppend(a: string, b: string)
    ensures SpaceCount(a + b) == SpaceCount(a) + SpaceCount(b)
  {
    if |a| > 0 {
      SpaceCountAppend(a[1..], b);
      assert (a + b)[0] == a[0] && (a + b)[1..] == a[1..] + b;
    } else {
      assert a + b == b;
    }
  }

  lemma {:induction false} SpaceFreeCount(w: string)
    ensures Space !in w ==> SpaceCount(w) == 0
  {
    if |w| > 0 {
      SpaceFreeCount(w[1..]);
      assert w == [w[0]] + w[1..];
    }
  }

  /** `s.split(' ')`: `s` cut at every single space, so that neighbouring
      spaces give an empty field and the empty string gives one empty field.
      There is one more field than there are spaces, and no field holds one. */
  function Split(s: string): (fields: seq<string>)
    ensures |fields| == SpaceCount(s) + 1
    ensures forall i :: 0 <= i < |fields| ==> Space !in fields[i]
  {
    if |s| == 0 then [""]
    else
      var rest := Split(s[1..]);
      if s[0] == Space then [""] + rest
      else [[s[0]] + rest[0]] + rest[1..]
  }

  /** `re.sub(' +', ' ', s)`: every maximal run of spaces replaced by a single
      space. A space is dropped exactly when the next character is a space too.
      The result is never longer, starts with the same character, and has no
      two neighbouring spaces. */
  function Collapse(s: string): (r: string)
    ensures |r| <= |s|
    ensures |s| > 0 ==> |r| > 0 && r[0] == s[0]
    ensures NoDoubleSpaces(r)
  {
    if |s| <= 1 then s
    else if s[0] == Space && s[1] == Space then Collapse(s[1..])
    else [s[0]] + Collapse(s[1..])
  }

  /** Collapsing keeps every non-space character, in order. */
  lemma {:induction false} CollapseKeepsNonSpaces(s: string)
    ensures NonSpaces(Collapse(s)) == NonSpaces(s)
  {
    if |s| <= 1 {
    } else if s[0] == Space && s[1] == Space {
      CollapseKeepsNonSpaces(s[1..]);
    } else {
      CollapseKeepsNonSpaces(s[1..]);
      var r := [s[0]] + Collapse(s[1..]);
      assert r[1..] == Collapse(s[1..]);
    }
  }

  /** Exactly the strings without two neighbouring spaces are left unchanged. */
  lemma {:induction false} CollapseFixedPoints(s: string)
    ensures Collapse(s) == s <==> NoDoubleSpaces(s)
  {
    if NoDoubleSpaces(s) && |s| > 1 {
      assert NoDoubleSpaces(s[1..]) by {
        forall i | 0 <= i < |s[1..]| - 1
          ensures !(s[1..][i] == Space && s[1..][i + 1] == Space)
        {
          assert s[1..][i] == s[i + 1] && s[1..][i + 1] == s[i + 2];
        }
      }
      CollapseFixedPoints(s[1..]);
      assert !(s[0] == Space && s[1] == Space);
      assert s == [s[0]] + s[1..];
    }
  }

  /** Normalising twice gives the same as normalising once. */
  lemma CollapseIdempotent(s: string)
    ensures Collapse(Collapse(s)) == Collapse(s)
  {
    CollapseFixedPoints(Collapse(s));
  }

  /** One extra space next to a space makes no difference: the run it joins is
      collapsed anyway. With CollapseFixedPoints this pins Collapse down. */
  lemma {:induction false} CollapseExtraSpace(x: string, y: string)
    ensures Collapse(x + [Space, Space] + y) == Collapse(x + [Space] + y)
  {
    var long, short := x + [Space, Space] + y, x + [Space] + y;
    if |x| == 0 {
      assert long[1..] == short;
    } else {
      CollapseExtraSpace(x[1..], y);
      assert long[1..] == x[1..] + [Space, Space] + y;
      assert short[1..] == x[1..] + [Space] + y;
      assert long[0] == short[0] == x[0];
      assert long[1] == short[1];
    }
  }

  /** Splitting a string and joining the pieces gives it back. */
  lemma {:induction false} JoinSplit(s: string)
    ensures Join(Split(s)) == s
  {
    if |s| > 0 {
      var rest := Split(s[1..]);
      JoinSplit(s[1..]);
      if s[0] == Space {
        assert ([""] + rest)[1..] == rest;
      } else if |rest| == 1 {
        assert s == [s[0]] + s[1..];
      } else {
        var fields := [[s[0]] + rest[0]] + rest[1..];
        assert fields[1..] == rest[1..];
        assert Join(rest) == rest[0] + [Space] + Join(rest[1..]);
        assert s == [s[0]] + s[1..];
      }
    }
  }

  lemma {:induction false} SplitSpaceFree(w: string)
    requires Space !in w
    ensures Split(w) == [w]
  {
    if |w| > 0 {
      SplitSpaceFree(w[1..]);
      assert w == [w[0]] + w[1..];
    }
  }

  lemma {:induction false} SplitAfterField(w: string, t: string)
    requires Space !in w
    ensures Split(w + [Space] + t) == [w] + Split(t)
  {
    var s := w + [Space] + t;
    if |w| == 0 {
      assert s[1..] == t;
    } else {
      SplitAfterField(w[1..], t);
      assert s[1..] == w[1..] + [Space] + t;
      assert [w[0]] + w[1..] == w;
    }
  }

  /** Joining fields that hold no space and splitting the result gives the
      fields back: the two operations are inverse on such field lists. */
  lemma {:induction false} SplitJoin(fields: seq<string>)
    requires |fields| >= 1
    requires forall i :: 0 <= i < |fields| ==> Space !in fields[i]
    ensures Split(Join(fields)) == fields
  {
    if |fields| == 1 {
      SplitSpaceFree(fields[0]);
    } else {
      SplitJoin(fields[1..]);
      SplitAfterField(fields[0], Join(fields[1..]));
      assert [fields[0]] + fields[1..] == fields;
    }
  }

  /** Joining two non-empty field lists one after the other puts one space
      between the two joins. */
  lemma {:induction false} JoinAppend(a: seq<string>, b: seq<string>)
    requires |a| >= 1 && |b| >= 1
    ensures Join(a + b) == Join(a) + [Space] + Join(b)
  {
    if |a| == 1 {
      assert (a + b)[1..] == b;
    } else {
      JoinAppend(a[1..], b);
      assert (a + b)[1..] == a[1..] + b;
    }
  }
}
