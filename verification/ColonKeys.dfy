/** Keys made by joining texts with ':'. */
module ColonKeys {

  function Join(parts: seq<string>): string
    requires |parts| > 0
  {
    if |parts| == 1 then parts[0] else parts[0] + ":" + Join(parts[1..])
  }

  function Colons(s: string): nat {
    if s == "" then 0 else (if s[0] == ':' then 1 else 0) + Colons(s[1..])
  }

  function ColonsIn(parts: seq<string>): nat {
    if parts == [] then 0 else Colons(parts[0]) + ColonsIn(parts[1..])
  }

  lemma {:induction false} ColonsConcat(a: string, b: string)
    ensures Colons(a + b) == Colons(a) + Colons(b)
    decreases |a|
  {
    if a == "" {
      assert a + b == b;
    } else {
      assert (a + b)[0] == a[0] && (a + b)[1..] == a[1..] + b;
      ColonsConcat(a[1..], b);
    }
  }

  lemma {:induction false} NoColonsIff(s: string)
    ensures Colons(s) == 0 <==> ':' !in s
    decreases |s|
  {
    if s != "" {
      NoColonsIff(s[1..]);
      assert s == [s[0]] + s[1..];
    }
  }

  lemma {:induction false} NoColonsInIff(parts: seq<string>)
    ensures ColonsIn(parts) == 0 <==> forall i :: 0 <= i < |parts| ==> ':' !in parts[i]
    decreases |parts|
  {
    if parts != [] {
      NoColonsIff(parts[0]);
      NoColonsInIff(parts[1..]);
      assert forall i :: 0 < i < |parts| ==> parts[i] == parts[1..][i - 1];
    }
  }

  lemma {:induction false} ColonsOfJoin(parts: seq<string>)
    requires |parts| > 0
    ensures Colons(Join(parts)) == ColonsIn(parts) + |parts| - 1
    decreases |parts|
  {
    if |parts| == 1 {
      assert ColonsIn(parts[1..]) == 0;
    } else {
      ColonsOfJoin(parts[1..]);
      ColonsConcat(parts[0] + ":", Join(parts[1..]));
      ColonsConcat(parts[0], ":");
      assert ":"[1..] == "" && Colons(":") == 1;
    }
  }

  /** Joining two texts with ':' loses nothing when the first holds no ':'. */
  lemma ColonSplits(a: string, b: string, x: string, y: string)
    requires ':' !in a && ':' !in x
    ensures a + ":" + b == x + ":" + y <==> a == x && b == y
  {
    var l, r := a + ":" + b, x + ":" + y;
    if l == r {
      assert l[|a|] == ':' && r[|x|] == ':';
      assert forall i :: 0 <= i < |a| ==> l[i] == a[i] && a[i] in a;
      assert forall i :: 0 <= i < |x| ==> r[i] == x[i] && x[i] in x;
      assert a == l[..|a|] && x == r[..|x|];
      assert b == l[|a| + 1..] && y == r[|x| + 1..];
    }
  }

  lemma {:induction false} CleanPartsSplit(ps: seq<string>, qs: seq<string>)
    requires |ps| == |qs| > 0 && ColonsIn(ps) == 0 && ColonsIn(qs) == 0 && Join(ps) == Join(qs)
    ensures ps == qs
    decreases |ps|
  {
    if |ps| > 1 {
      NoColonsIff(ps[0]);
      NoColonsIff(qs[0]);
      ColonSplits(ps[0], Join(ps[1..]), qs[0], Join(qs[1..]));
      CleanPartsSplit(ps[1..], qs[1..]);
      assert ps == [ps[0]] + ps[1..] && qs == [qs[0]] + qs[1..];
    }
  }

  lemma Regroup(a: string, b: string, c: string)
    ensures (a + ":" + b) + ":" + c == a + ":" + (b + ":" + c)
  {
  }

  lemma CutAtColon(s: string) returns (x: string, y: string)
    requires ':' in s
    ensures s == x + ":" + y
  {
    var i :| 0 <= i < |s| && s[i] == ':';
    x, y := s[..i], s[i + 1..];
  }

  lemma JoinFirst(p: string, rest: seq<string>)
    requires |rest| > 0
    ensures Join([p] + rest) == p + ":" + Join(rest)
  {
    assert ([p] + rest)[1..] == rest;
  }

  /** Moving a ':' from one part into the next one. */
  lemma ShiftColon(x: string, y: string, p: string, rest: seq<string>)
    ensures Join([x + ":" + y, p] + rest) == Join([x, y + ":" + p] + rest)
  {
    assert [x + ":" + y, p] + rest == [x + ":" + y] + ([p] + rest) && [x, y + ":" + p] + rest == [x] + ([y + ":" + p] + rest);
    JoinFirst(x + ":" + y, [p] + rest);
    JoinFirst(x, [y + ":" + p] + rest);
    ShiftInside(y, p, rest);
    Regroup(x, y, Join([p] + rest));
  }

  lemma ShiftInside(y: string, p: string, rest: seq<string>)
    ensures Join([y + ":" + p] + rest) == y + ":" + Join([p] + rest)
  {
    if rest == [] {
      assert [y + ":" + p] + rest == [y + ":" + p] && [p] + rest == [p];
    } else {
      JoinFirst(y + ":" + p, rest);
      JoinFirst(p, rest);
      Regroup(y, p, Join(rest));
    }
  }

  /** A part that holds a ':' can be split differently. */
  lemma {:induction false} OtherSplit(ps: seq<string>, i: nat) returns (qs: seq<string>)
    requires |ps| >= 2 && i < |ps| && ':' in ps[i]
    ensures |qs| == |ps| && qs != ps && Join(qs) == Join(ps)
    decreases |ps|
  {
    if i >= 2 {
      var rest := OtherSplit(ps[1..], i - 1);
      qs := [ps[0]] + rest;
      JoinFirst(ps[0], rest);
      assert qs[1..] == rest;
    } else {
      var x, y := CutAtColon(ps[i]);
      if i == 0 {
        qs := [x, y + ":" + ps[1]] + ps[2..];
        ShiftColon(x, y, ps[1], ps[2..]);
        assert ps == [x + ":" + y, ps[1]] + ps[2..];
        assert |qs[0]| < |ps[0]|;
      } else {
        qs := [ps[0] + ":" + x, y] + ps[2..];
        ShiftColon(ps[0], x, y, ps[2..]);
        assert ps == [ps[0], x + ":" + y] + ps[2..];
        assert |qs[0]| > |ps[0]|;
      }
    }
  }

  ghost predicate OnlySplit(ps: seq<string>)
    requires |ps| > 0
  {
    forall qs: seq<string> :: |qs| == |ps| && Join(qs) == Join(ps) ==> qs == ps
  }

  /** Two or more joined parts can be read back from the key in one way only exactly if none of them holds a ':'. */
  lemma {:induction false} OnlySplitIff(ps: seq<string>)
    requires |ps| >= 2
    ensures OnlySplit(ps) <==> forall i :: 0 <= i < |ps| ==> ':' !in ps[i]
  {
    NoColonsInIff(ps);
    if i: nat :| i < |ps| && ':' in ps[i] {
      var qs := OtherSplit(ps, i);
    } else {
      forall qs: seq<string> | |qs| == |ps| && Join(qs) == Join(ps)
        ensures qs == ps
      {
        ColonsOfJoin(ps);
        ColonsOfJoin(qs);
        CleanPartsSplit(ps, qs);
      }
    }
  }

  lemma JoinThree(a: string, b: string, c: string)
    ensures Join([a, b, c]) == a + ":" + (b + ":" + c)
  {
    assert [a, b, c][1..] == [b, c] && [b, c][1..] == [c];
    assert Join([b, c]) == b + ":" + Join([c]);
  }

  lemma JoinFour(a: string, b: string, c: string, d: string)
    ensures Join([a, b, c, d]) == a + ":" + (b + ":" + (c + ":" + d))
  {
    assert [a, b, c, d][1..] == [b, c, d];
    JoinThree(b, c, d);
  }
}
