/**
 A Redis sorted set (`cache:lru`, `cache:bytes`) as a sequence of members kept
 in ascending score order, equal scores ordered by the members' lexicographic
 order, as Redis orders them. `Add` is ZADD, `Remove` is ZREM and `Lowest` is
 ZRANGE from rank 0.
 */
module SortedSet {
  import opened Common

  datatype Ranked = Ranked(member: string, score: int)

  /** Lexicographic order on strings, a proper prefix first. */
  predicate LexLess(a: string, b: string)
    decreases |a|
  {
    if a == [] then b != []
    else if b == [] then false
    else if a[0] == b[0] then LexLess(a[1..], b[1..])
    else a[0] < b[0]
  }

  lemma {:induction false} LexIrreflexive(a: string)
    ensures !LexLess(a, a)
  {
    if a != [] {
      LexIrreflexive(a[1..]);
    }
  }

  lemma {:induction false} LexTransitive(a: string, b: string, c: string)
    requires LexLess(a, b) && LexLess(b, c)
    ensures LexLess(a, c)
    decreases |a|
  {
    if a != [] && b != [] && c != [] && a[0] == b[0] && b[0] == c[0] {
      LexTransitive(a[1..], b[1..], c[1..]);
    }
  }

  lemma {:induction false} LexTotal(a: string, b: string)
    requires a != b
    ensures LexLess(a, b) || LexLess(b, a)
    decreases |a|
  {
    if a != [] && b != [] && a[0] == b[0] {
      assert a == [a[0]] + a[1..] && b == [b[0]] + b[1..];
      LexTotal(a[1..], b[1..]);
    }
  }

  /** The order of a sorted set: by score, then by member. */
  predicate Before(x: Ranked, y: Ranked) {
    x.score < y.score || (x.score == y.score && LexLess(x.member, y.member))
  }

  lemma BeforeTransitive(x: Ranked, y: Ranked, z: Ranked)
    requires Before(x, y) && Before(y, z)
    ensures Before(x, z)
  {
    if x.score == y.score && y.score == z.score {
      LexTransitive(x.member, y.member, z.member);
    }
  }

  lemma BeforeTotal(x: Ranked, y: Ranked)
    requires x.member != y.member
    ensures Before(x, y) || Before(y, x)
  {
    if x.score == y.score {
      LexTotal(x.member, y.member);
    }
  }

  function Members(z: seq<Ranked>): set<string> {
    set i | 0 <= i < |z| :: z[i].member
  }

  predicate Sorted(z: seq<Ranked>) {
    forall i, j :: 0 <= i < j < |z| ==> Before(z[i], z[j])
  }

  predicate Unique(z: seq<Ranked>) {
    forall i, j :: 0 <= i < j < |z| ==> z[i].member != z[j].member
  }

  /** The shape every sorted set keeps: ordered, each member once. */
  predicate Valid(z: seq<Ranked>) {
    Sorted(z) && Unique(z)
  }

  lemma MembersCons(z: seq<Ranked>)
    requires z != []
    ensures Members(z) == {z[0].member} + Members(z[1..])
  {
    forall n | n in Members(z) ensures n in {z[0].member} + Members(z[1..]) {
      var i :| 0 <= i < |z| && z[i].member == n;
      if i > 0 {
        assert z[1..][i - 1].member == n;
      }
    }
  }

  /** ZREM: drops the member; the rest keep their order. */
  function Remove(z: seq<Ranked>, m: string): (r: seq<Ranked>)
    ensures Members(r) == Members(z) - {m}
    ensures forall x :: x in r <==> x in z && x.member != m
    ensures |r| <= |z|
    ensures m in Members(z) ==> |r| < |z|
  {
    if z == [] then []
    else
      var rest := Remove(z[1..], m);
      MembersCons(z);
      if z[0].member == m then rest
      else
        var r := [z[0]] + rest;
        assert r[1..] == rest;
        MembersCons(r);
        r
  }

  lemma {:induction false} RemoveValid(z: seq<Ranked>, m: string)
    requires Valid(z)
    ensures Valid(Remove(z, m))
  {
    if z != [] {
      assert Valid(z[1..]);
      RemoveValid(z[1..], m);
      var rest := Remove(z[1..], m);
      if z[0].member != m {
        forall x | x in rest ensures Before(z[0], x) && z[0].member != x.member {
          var k :| 0 <= k < |z[1..]| && z[1..][k] == x;
          assert z[k + 1] == x;
        }
        ConsValid(z[0], rest);
        assert Remove(z, m) == [z[0]] + rest;
      }
    }
  }

  /** An entry placed in front of a valid set that it precedes, and whose member is new, keeps it valid. */
  lemma ConsValid(x: Ranked, rest: seq<Ranked>)
    requires Valid(rest)
    requires forall y :: y in rest ==> Before(x, y) && x.member != y.member
    ensures Valid([x] + rest)
  {
    var r := [x] + rest;
    forall i, j | 0 <= i < j < |r| ensures Before(r[i], r[j]) && r[i].member != r[j].member {
      assert r[j] == rest[j - 1];
      if i > 0 {
        assert r[i] == rest[i - 1];
      }
    }
  }

  /** Removing a member that is absent changes nothing. */
  lemma {:induction false} RemoveAbsent(z: seq<Ranked>, m: string)
    requires m !in Members(z)
    ensures Remove(z, m) == z
  {
    if z != [] {
      MembersCons(z);
      RemoveAbsent(z[1..], m);
      assert [z[0]] + z[1..] == z;
    }
  }

  /** ZREM of the lowest-ranked member of a set with unique members drops the first entry. */
  lemma RemoveFirst(z: seq<Ranked>)
    requires z != [] && Unique(z)
    ensures Remove(z, z[0].member) == z[1..]
  {
    forall i | 0 <= i < |z[1..]| ensures z[1..][i].member != z[0].member {
      assert z[1..][i] == z[i + 1];
    }
    RemoveAbsent(z[1..], z[0].member);
  }

  /** Places a new member at its position in the order. */
  function Insert(z: seq<Ranked>, x: Ranked): (r: seq<Ranked>)
    requires x.member !in Members(z)
    ensures Members(r) == Members(z) + {x.member}
    ensures forall y :: y in r <==> y in z || y == x
  {
    if z == [] then
      MembersCons([x]);
      [x]
    else if Before(x, z[0]) then
      var r := [x] + z;
      assert r[1..] == z;
      MembersCons(r);
      r
    else
      MembersCons(z);
      var rest := Insert(z[1..], x);
      var r := [z[0]] + rest;
      assert r[1..] == rest;
      MembersCons(r);
      r
  }

  lemma {:induction false} InsertValid(z: seq<Ranked>, x: Ranked)
    requires Valid(z) && x.member !in Members(z)
    ensures Valid(Insert(z, x))
  {
    if z != [] {
      MembersCons(z);
      var r := Insert(z, x);
      if Before(x, z[0]) {
        forall y | y in z ensures Before(x, y) && x.member != y.member {
          var k :| 0 <= k < |z| && z[k] == y;
          if k > 0 {
            BeforeTransitive(x, z[0], y);
          }
        }
        ConsValid(x, z);
      } else {
        assert Valid(z[1..]);
        InsertValid(z[1..], x);
        var rest := Insert(z[1..], x);
        BeforeTotal(x, z[0]);
        forall y | y in rest ensures Before(z[0], y) && z[0].member != y.member {
          if y != x {
            var k :| 0 <= k < |z[1..]| && z[1..][k] == y;
            assert z[k + 1] == y;
          }
        }
        ConsValid(z[0], rest);
      }
    }
  }

  /** `after` holds `m` at `score` and otherwise exactly the entries of `before`. */
  ghost predicate SetsScore(before: seq<Ranked>, after: seq<Ranked>, m: string, score: int) {
    forall x :: x in after <==> x == Ranked(m, score) || (x in before && x.member != m)
  }

  /** ZADD: sets the member's score, adding the member when new. */
  function Add(z: seq<Ranked>, m: string, score: int): (r: seq<Ranked>)
    ensures Members(r) == Members(z) + {m}
    ensures SetsScore(z, r, m, score)
  {
    Insert(Remove(z, m), Ranked(m, score))
  }

  /** After ZADD the member reads back the score it was given, whatever the set held before. */
  lemma SetsScoreMeaning(before: seq<Ranked>, after: seq<Ranked>, m: string, score: int)
    requires SetsScore(before, after, m, score)
    ensures ScoreOf(after, m) == Some(score)
    ensures Members(after) == Members(before) + {m}
  {
    assert Ranked(m, score) in after;
    var r := ScoreOf(after, m);
    assert Ranked(m, r.value) in after;
    forall n | n in Members(after) ensures n in Members(before) + {m} {
      var i :| 0 <= i < |after| && after[i].member == n;
      assert after[i] in after;
    }
    forall n | n in Members(before) + {m} ensures n in Members(after) {
      if n != m {
        var i :| 0 <= i < |before| && before[i].member == n;
        assert before[i] in after;
      }
    }
  }

  /** Two ZADDs of one member: the second score is the one that stays. */
  lemma SetsScoreTwice(a: seq<Ranked>, b: seq<Ranked>, c: seq<Ranked>, m: string, s1: int, s2: int)
    requires SetsScore(a, b, m, s1) && SetsScore(b, c, m, s2)
    ensures SetsScore(a, c, m, s2)
  {
  }

  lemma AddValid(z: seq<Ranked>, m: string, score: int)
    requires Valid(z)
    ensures Valid(Add(z, m, score))
  {
    RemoveValid(z, m);
    InsertValid(Remove(z, m), Ranked(m, score));
  }

  /** The score of a member, if present. */
  function ScoreOf(z: seq<Ranked>, m: string): (r: Option<int>)
    ensures r.None? <==> m !in Members(z)
    ensures r.Some? ==> Ranked(m, r.value) in z
  {
    if z == [] then None
    else if z[0].member == m then Some(z[0].score)
    else
      MembersCons(z);
      ScoreOf(z[1..], m)
  }

  /** In a set with unique members, the entry of a member determines its score. */
  lemma {:induction false} ScoreOfUnique(z: seq<Ranked>, x: Ranked)
    requires Unique(z) && x in z
    ensures ScoreOf(z, x.member) == Some(x.score)
  {
    var r := ScoreOf(z, x.member);
    var i :| 0 <= i < |z| && z[i] == Ranked(x.member, r.value);
    var j :| 0 <= j < |z| && z[j] == x;
    assert i == j;
  }

  /** ZADD changes the added member's score and no other. */
  lemma AddScores(z: seq<Ranked>, m: string, score: int, other: string)
    requires Valid(z) && other != m
    ensures ScoreOf(Add(z, m, score), m) == Some(score)
    ensures ScoreOf(Add(z, m, score), other) == ScoreOf(z, other)
  {
    var r := Add(z, m, score);
    AddValid(z, m, score);
    ScoreOfUnique(r, Ranked(m, score));
    if other in Members(z) {
      var s := ScoreOf(z, other).value;
      ScoreOfUnique(r, Ranked(other, s));
    }
  }

  /** ZRANGE 0 (n - 1): the n lowest-ranked members, in order. */
  function Lowest(z: seq<Ranked>, n: nat): (r: seq<string>)
    ensures |r| == if |z| < n then |z| else n
    ensures forall i :: 0 <= i < |r| ==> r[i] == z[i].member
  {
    var k := if |z| < n then |z| else n;
    seq(k, i requires 0 <= i < k => z[i].member)
  }
}
