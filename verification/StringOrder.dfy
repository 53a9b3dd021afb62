// The order in which sorted vectors keep their string keys.
module StringOrder {
  // String order by characters.
  predicate Less(a: string, b: string) {
    b != "" && (a == "" || a[0] < b[0] || (a[0] == b[0] && Less(a[1..], b[1..])))
  }

  lemma {:induction false} LessIsStrict(a: string, b: string)
    ensures !(Less(a, b) && (Less(b, a) || a == b))
  {
    if a != "" && b != "" {
      LessIsStrict(a[1..], b[1..]);
    }
  }

  lemma {:induction false} LessIsTotal(a: string, b: string)
    ensures a == b || Less(a, b) || Less(b, a)
  {
    if a != "" && b != "" && a[0] == b[0] {
      LessIsTotal(a[1..], b[1..]);
      assert a == [a[0]] + a[1..] && b == [b[0]] + b[1..];
    }
  }

  lemma {:induction false} LessIsTransitive(a: string, b: string, c: string)
    requires Less(a, b) && Less(b, c)
    ensures Less(a, c)
  {
    if a != "" && a[0] == b[0] == c[0] {
      LessIsTransitive(a[1..], b[1..], c[1..]);
    }
  }

  predicate Ascends(ss: seq<string>) {
    forall i, j | 0 <= i < j < |ss| :: Less(ss[i], ss[j])
  }

  // SortedVector::add: insert in order, nothing for a string already there.
  function Added(ss: seq<string>, x: string): seq<string> {
    if ss == [] then [x]
    else if x == ss[0] then ss
    else if Less(x, ss[0]) then [x] + ss
    else [ss[0]] + Added(ss[1..], x)
  }

  lemma {:induction false} AddedMembers(ss: seq<string>, x: string, y: string)
    ensures y in Added(ss, x) <==> y in ss || y == x
  {
    if ss != [] {
      assert ss == [ss[0]] + ss[1..];
      AddedMembers(ss[1..], x, y);
    }
  }

  lemma LessThanAll(ss: seq<string>, x: string)
    requires Ascends(ss) && ss != [] && Less(x, ss[0])
    ensures Ascends([x] + ss)
  {
    forall j | 0 <= j < |ss| ensures Less(x, ss[j]) {
      if j > 0 {
        LessIsTransitive(x, ss[0], ss[j]);
      }
    }
  }

  lemma PrependAscends(x: string, ss: seq<string>)
    requires Ascends(ss) && forall y | y in ss :: Less(x, y)
    ensures Ascends([x] + ss)
  {
  }

  lemma {:induction false} AddedAscends(ss: seq<string>, x: string)
    requires Ascends(ss)
    ensures Ascends(Added(ss, x))
  {
    if ss != [] && x != ss[0] {
      if Less(x, ss[0]) {
        LessThanAll(ss, x);
      } else {
        LessIsTotal(x, ss[0]);
        AddedAscends(ss[1..], x);
        forall y | y in Added(ss[1..], x) ensures Less(ss[0], y) {
          AddedMembers(ss[1..], x, y);
        }
        PrependAscends(ss[0], Added(ss[1..], x));
      }
    }
  }

  function AddedAll(ss: seq<string>, xs: seq<string>): seq<string> {
    if xs == [] then ss else Added(AddedAll(ss, xs[..|xs| - 1]), xs[|xs| - 1])
  }

  lemma {:induction false} AddedAllAscends(xs: seq<string>)
    ensures Ascends(AddedAll([], xs))
  {
    if xs != [] {
      AddedAllAscends(xs[..|xs| - 1]);
      AddedAscends(AddedAll([], xs[..|xs| - 1]), xs[|xs| - 1]);
    }
  }

  lemma {:induction false} AddedAllMembers(xs: seq<string>, y: string)
    ensures y in AddedAll([], xs) <==> y in xs
  {
    if xs != [] {
      AddedAllMembers(xs[..|xs| - 1], y);
      AddedMembers(AddedAll([], xs[..|xs| - 1]), xs[|xs| - 1], y);
      assert xs == xs[..|xs| - 1] + [xs[|xs| - 1]];
    }
  }

  lemma {:induction false} AddedGreatest(ss: seq<string>, x: string)
    requires forall i | 0 <= i < |ss| :: Less(ss[i], x)
    ensures Added(ss, x) == ss + [x]
  {
    if ss != [] {
      LessIsStrict(ss[0], x);
      AddedGreatest(ss[1..], x);
    }
  }

  // Adding strings that already ascend gives them back.
  lemma {:induction false} AddedAllSorted(ss: seq<string>)
    requires Ascends(ss)
    ensures AddedAll([], ss) == ss
  {
    if ss != [] {
      var n := |ss| - 1;
      AddedAllSorted(ss[..n]);
      AddedGreatest(ss[..n], ss[n]);
      assert ss == ss[..n] + [ss[n]];
    }
  }

  function IndexIn(ss: seq<string>, x: string): (i: nat)
    requires x in ss
    ensures i < |ss| && ss[i] == x
  {
    if ss[0] == x then 0 else 1 + IndexIn(ss[1..], x)
  }
}
