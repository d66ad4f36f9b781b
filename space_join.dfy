/**
  Python's `" ".join(parts)`: the parts in their given order with exactly one
  space between neighbours, and `""` for no parts. `Split` is `str.split(" ")`,
  used here as the inverse that shows the join loses nothing when no part
  contains a space.
*/
module SpaceJoin {

  /**
    `" ".join(parts)`. The joined text is as long as all parts together plus
    one space between each neighbouring pair, and empty for no parts.
  */
  function Join(parts: seq<string>): (joined: string)
    ensures |parts| == 0 ==> joined == ""
    ensures |joined| == if |parts| == 0 then 0 else TotalLength(parts) + |parts| - 1
  {
    if |parts| == 0 then ""
    else if |parts| == 1 then parts[0]
    else parts[0] + " " + Join(parts[1..])
  }

  /** The sum of the lengths of the parts. */
  function TotalLength(parts: seq<string>): nat {
    if |parts| == 0 then 0 else |parts[0]| + TotalLength(parts[1..])
  }

  /** `s.split(" ")`: the maximal space-free pieces, empty ones included; never an empty list. */
  function Split(s: string): (pieces: seq<string>)
    ensures |pieces| >= 1
  {
    if |s| == 0 then [""]
    else
      var rest := Split(s[1..]);
      if s[0] == ' ' then [""] + rest
      else [[s[0]] + rest[0]] + rest[1..]
  }

  predicate NoSpaces(parts: seq<string>) {
    forall i :: 0 <= i < |parts| ==> ' ' !in parts[i]
  }

  /** Joining two non-empty lists is joining each and putting one space between. */
  lemma {:induction false} JoinAppend(front: seq<string>, back: seq<string>)
    requires |front| > 0 && |back| > 0
    ensures Join(front + back) == Join(front) + " " + Join(back)
    decreases |front|
  {
    if |front| > 1 {
      assert (front + back)[1..] == front[1..] + back;
      JoinAppend(front[1..], back);
    } else {
      assert (front + back)[1..] == back;
    }
  }

  /** The space that follows part `i` in the joined text: one, unless `i` is the last part. */
  function SpaceAfter(parts: seq<string>, i: nat): string {
    if i + 1 < |parts| then " " else ""
  }

  /** The joined text is the first part, the space after it, and the join of the others. */
  lemma JoinHead(parts: seq<string>)
    requires |parts| > 0
    ensures Join(parts) == parts[0] + SpaceAfter(parts, 0) + (if |parts| > 1 then Join(parts[1..]) else "")
  {
  }

  /** The first part opens the joined text, followed by a space unless it is the only part. */
  lemma JoinStartsWithFirst(parts: seq<string>)
    requires |parts| > 0
    ensures parts[0] + SpaceAfter(parts, 0) <= Join(parts)
  {
    JoinHead(parts);
    Regroup("", parts[0], SpaceAfter(parts, 0), if |parts| > 1 then Join(parts[1..]) else "");
    assert "" + parts[0] == parts[0];
  }

  /**
    Part `i` (after the first) appears verbatim right after the joined earlier
    parts and one space, and is followed by one space unless it is the last
    part: the parts come out in their given order.
  */
  lemma JoinPlacesPart(parts: seq<string>, i: nat)
    requires 0 < i < |parts|
    ensures Join(parts[..i]) + " " + parts[i] + SpaceAfter(parts, i) <= Join(parts)
  {
    var rest := parts[i..];
    assert parts[..i] + rest == parts;
    var front := Join(parts[..i]);
    var tail := if |rest| > 1 then Join(rest[1..]) else "";
    JoinHead(rest);
    assert rest[0] == parts[i] && SpaceAfter(rest, 0) == SpaceAfter(parts, i);
    assert Join(rest) == parts[i] + SpaceAfter(parts, i) + tail;
    JoinAppend(parts[..i], rest);
    assert Join(parts) == front + " " + Join(rest);
    Regroup(front + " ", parts[i], SpaceAfter(parts, i), tail);
  }

  lemma Regroup(a: string, b: string, c: string, d: string)
    ensures a + b + c <= a + (b + c + d)
  {
    assert a + (b + c + d) == (a + b + c) + d;
  }

  /** A space-free string splits into itself. */
  lemma {:induction false} SplitWord(w: string)
    requires ' ' !in w
    ensures Split(w) == [w]
  {
    if |w| > 0 {
      assert ' ' !in w[1..] by {
        forall k | 0 <= k < |w[1..]| ensures w[1..][k] != ' ' {
          assert w[1..][k] == w[k + 1];
        }
      }
      SplitWord(w[1..]);
      assert [w[0]] + w[1..] == w;
    }
  }

  /** Splitting stops at the first space. */
  lemma {:induction false} SplitAfterWord(w: string, t: string)
    requires ' ' !in w
    ensures Split(w + " " + t) == [w] + Split(t)
  {
    if |w| == 0 {
      assert (w + " " + t)[1..] == t;
    } else {
      assert ' ' !in w[1..] by {
        forall k | 0 <= k < |w[1..]| ensures w[1..][k] != ' ' {
          assert w[1..][k] == w[k + 1];
        }
      }
      SplitAfterWord(w[1..], t);
      assert (w + " " + t)[1..] == w[1..] + " " + t;
      assert [w[0]] + w[1..] == w;
    }
  }

  /** Round trip: splitting the joined text on spaces gives back the parts, when none contains a space. */
  lemma {:induction false} SplitJoin(parts: seq<string>)
    requires |parts| > 0 && NoSpaces(parts)
    ensures Split(Join(parts)) == parts
  {
    assert ' ' !in parts[0];
    if |parts| == 1 {
      SplitWord(parts[0]);
    } else {
      SplitAfterWord(parts[0], Join(parts[1..]));
      SplitJoin(parts[1..]);
    }
  }

  /** Different non-empty lists of space-free parts, reordered ones included, join to different texts. */
  lemma JoinInjective(a: seq<string>, b: seq<string>)
    requires |a| > 0 && |b| > 0 && NoSpaces(a) && NoSpaces(b)
    requires Join(a) == Join(b)
    ensures a == b
  {
    SplitJoin(a);
    SplitJoin(b);
  }

  /**
    Without the space-free condition a reordering can leave the text
    unchanged: `["a", "a a"]` and its reversal both join to `"a a a"`.
  */
  lemma ReorderingCanKeepTheJoin()
    ensures ["a", "a a"] != ["a a", "a"]
    ensures Join(["a", "a a"]) == Join(["a a", "a"]) == "a a a"
  {
    assert ["a", "a a"][0] != ["a a", "a"][0];
    assert ["a", "a a"][1..] == ["a a"];
    assert ["a a", "a"][1..] == ["a"];
  }
}
