/** Small vocabulary shared by every module. */
module Common {
  datatype Option<+T> = None | Some(value: T)

  /** The least element of a non-empty set of row ids. */
  function Min(s: set<nat>): (m: nat)
    requires s != {}
    ensures m in s && forall x | x in s :: m <= x
  {
    MinExists(s);
    var m :| m in s && forall x | x in s :: m <= x;
    m
  }

  lemma MinExists(s: set<nat>)
    requires s != {}
    ensures exists m :: m in s && forall x | x in s :: m <= x
  {
    var a :| a in s;
    var rest := s - {a};
    if rest == {} {
      assert s == {a};
    } else {
      MinExists(rest);
      var m :| m in rest && forall x | x in rest :: m <= x;
      var least := if a <= m then a else m;
      assert forall x | x in s :: x == a || x in rest;
      assert least in s && forall x | x in s :: least <= x;
    }
  }

  predicate Increasing(ids: seq<nat>) {
    forall i, j | 0 <= i < j < |ids| :: ids[i] < ids[j]
  }

  /** `ORDER BY id ASC LIMIT limit` over a set of ids: what both the outbox
      drainer and the archival worker ask the database for. */
  function Lowest(s: set<nat>, limit: nat): (ids: seq<nat>)
    ensures Increasing(ids)
    ensures forall x | x in ids :: x in s
    ensures forall x, y | x in s && x !in ids && y in ids :: y < x
    ensures |ids| == if |s| < limit then |s| else limit
    ensures |ids| < limit ==> forall x | x in s :: x in ids
    decreases limit
  {
    if limit == 0 || s == {} then []
    else
      var m := Min(s);
      var rest := Lowest(s - {m}, limit - 1);
      assert forall i | 0 <= i < |rest| :: m < rest[i] by {
        forall i | 0 <= i < |rest|
          ensures m < rest[i]
        {
          assert rest[i] in rest && rest[i] in s - {m};
        }
      }
      [m] + rest
  }

  function SetOf(ids: seq<nat>): (s: set<nat>)
    ensures forall id :: id in s <==> id in ids
  {
    set id | id in ids
  }

  lemma {:induction false} SetOfIncreasing(ids: seq<nat>)
    requires Increasing(ids)
    ensures |SetOf(ids)| == |ids|
  {
    if |ids| > 0 {
      var n := |ids| - 1;
      SetOfIncreasing(ids[..n]);
      assert forall id | id in ids[..n] :: id < ids[n];
      assert SetOf(ids) == SetOf(ids[..n]) + {ids[n]};
    }
  }
}
