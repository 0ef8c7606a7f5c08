/** How one polling cycle fills the server-side storage: the two seeded
    setpoints, every fetched (name, value) pair written over what was there,
    and the setpoints from the settings form written over the fetched ones. */
module Merge {
  import opened Values
  import opened Rules

  /** One entry of the controller list the API returns. */
  datatype Position = Position(name: string, value: Val)

  /** The storage before the first poll: the two default setpoints. */
  const Seed: Snapshot := map[HotWaterTarget := N(80.0), BedroomTarget := N(21.0)]

  /** The names that occur in a fetched list. */
  function Names(ps: seq<Position>): set<string> {
    set i | 0 <= i < |ps| :: ps[i].name
  }

  /** `ps[i]` is the last position in `ps` that carries the name `n`. */
  ghost predicate LastWith(ps: seq<Position>, n: string, i: int) {
    0 <= i < |ps| && ps[i].name == n && forall j | i < j < |ps| :: ps[j].name != n
  }

  /** The storage after writing the fetched positions into `s` in list
      order. Defined by peeling the last position off, so that it reads as
      the state after each step of the loop. */
  function Merged(s: Snapshot, ps: seq<Position>): Snapshot
    decreases |ps|
  {
    if ps == [] then s
    else
      var last := ps[|ps| - 1];
      Merged(s, ps[..|ps| - 1])[last.name := last.value]
  }

  /** The merge keeps every stored name and adds exactly the fetched ones. */
  lemma {:induction false} MergedKeys(s: Snapshot, ps: seq<Position>)
    ensures Merged(s, ps).Keys == s.Keys + Names(ps)
    decreases |ps|
  {
    if ps != [] {
      var init := ps[..|ps| - 1];
      MergedKeys(s, init);
      assert Names(ps) == Names(init) + {ps[|ps| - 1].name} by {
        forall n | n in Names(ps) ensures n in Names(init) + {ps[|ps| - 1].name} {
          var i :| 0 <= i < |ps| && ps[i].name == n;
          if i < |ps| - 1 {
            assert init[i].name == n;
          }
        }
        forall n | n in Names(init) ensures n in Names(ps) {
          var i :| 0 <= i < |init| && init[i].name == n;
          assert ps[i].name == n;
        }
      }
    }
  }

  /** The last fetched value of a name wins, and a name that is not fetched
      keeps its stored value. */
  lemma {:induction false} MergedValues(s: Snapshot, ps: seq<Position>, n: string)
    ensures forall i | LastWith(ps, n, i) :: n in Merged(s, ps) && Merged(s, ps)[n] == ps[i].value
    ensures n !in Names(ps) ==> (n in Merged(s, ps) <==> n in s)
    ensures n !in Names(ps) && n in s ==> Merged(s, ps)[n] == s[n]
    decreases |ps|
  {
    if ps != [] {
      var init, last := ps[..|ps| - 1], ps[|ps| - 1];
      MergedValues(s, init, n);
      forall i | LastWith(ps, n, i)
        ensures n in Merged(s, ps) && Merged(s, ps)[n] == ps[i].value
      {
        if i < |ps| - 1 {
          assert last.name != n;
          assert LastWith(init, n, i);
        }
      }
      if n !in Names(ps) {
        assert last.name != n;
        assert n !in Names(init);
      }
    }
  }

  /** The setpoints from the settings form overwrite the fetched ones. The
      hot-water setpoint is looked up first; when it is missing, the lookup
      fails before the bedroom setpoint is read. */
  function WithSetpoints(s: Snapshot, hot: Option<Val>, bedroom: Option<Val>): (r: Snapshot)
    ensures r.Keys == s.Keys + (if hot.Some? then {HotWaterTarget} else {})
                             + (if hot.Some? && bedroom.Some? then {BedroomTarget} else {})
    ensures hot.Some? ==> r[HotWaterTarget] == hot.value
    ensures hot.Some? && bedroom.Some? ==> r[BedroomTarget] == bedroom.value
    ensures forall k | k in s && k != HotWaterTarget && k != BedroomTarget :: r[k] == s[k]
    ensures hot.None? ==> r == s
    ensures bedroom.None? && hot.Some? ==> BedroomTarget in s ==> r[BedroomTarget] == s[BedroomTarget]
  {
    match hot
    case None => s
    case Some(h) =>
      var s1 := s[HotWaterTarget := h];
      match bedroom
      case None => s1
      case Some(b) => s1[BedroomTarget := b]
  }

  /** The seeded setpoints survive every poll: the merge only adds names,
      and the setpoint step only overwrites them. */
  lemma SeedKeysStay(s: Snapshot, ps: seq<Position>, hot: Option<Val>, bedroom: Option<Val>)
    requires Seed.Keys <= s.Keys
    ensures Seed.Keys <= WithSetpoints(Merged(s, ps), hot, bedroom).Keys
  {
    MergedKeys(s, ps);
  }
}
