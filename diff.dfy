/** The minimal update that `smart_home_manager` publishes: the post-rule
    snapshot with every key removed whose value the rules left equal (in the
    sense of Python `==`) to the pre-rule one. */
module Changes {
  import opened Values
  import opened Rules

  /** The update to publish: every key of the new snapshot that is new, or
      whose value is not `==` to the old one, with its new value. */
  function Diff(d1: Snapshot, d2: Snapshot): Snapshot
    requires d1.Keys <= d2.Keys
  {
    map k | k in d2 && (k !in d1 || !PyEq(d1[k], d2[k])) :: d2[k]
  }

  /** The diff loop: walk the keys of the pre-rule copy and pop from the
      post-rule copy each one whose value compares equal. The order of the
      walk does not matter: each key is decided on its own. */
  method MinimalDiff(d1: Snapshot, d2: Snapshot) returns (d: Snapshot)
    requires d1.Keys <= d2.Keys
    ensures d == Diff(d1, d2)
  {
    d := d2;
    var pending := d1.Keys;
    while pending != {}
      invariant pending <= d1.Keys
      invariant forall k :: k in d <==> k in d2 && !(k in d1 && k !in pending && PyEq(d1[k], d2[k]))
      invariant forall k | k in d :: d[k] == d2[k]
      decreases |pending|
    {
      var key :| key in pending;
      if PyEq(d1[key], d[key]) {
        d := d - {key};
      }
      pending := pending - {key};
    }
  }

  /** Applying the update to the pre-rule snapshot gives the post-rule one,
      up to Python equality: no change is lost. */
  lemma PatchRestores(d1: Snapshot, d2: Snapshot)
    requires d1.Keys <= d2.Keys
    ensures var p := d1 + Diff(d1, d2);
      && p.Keys == d2.Keys
      && forall k | k in d2 :: PyEq(p[k], d2[k])
  {
    var p := d1 + Diff(d1, d2);
    forall k | k in d2
      ensures k in p && PyEq(p[k], d2[k])
    {
      if k in d1 && PyEq(d1[k], d2[k]) {
        PyEqIsEquivalence(d1[k], d2[k], d2[k]);
      }
    }
  }

  /** The update is empty exactly when no key was added and every value
      compares equal, so an unchanged snapshot is never published. */
  lemma DiffEmptyIff(d1: Snapshot, d2: Snapshot)
    requires d1.Keys <= d2.Keys
    ensures Diff(d1, d2) == map[] <==>
      d2.Keys == d1.Keys && forall k | k in d1 :: PyEq(d1[k], d2[k])
  {
    if Diff(d1, d2) == map[] {
      forall k | k in d2 ensures k in d1 && PyEq(d1[k], d2[k]) {
        assert k !in Diff(d1, d2);
      }
    }
  }

  /** Only keys the cascade writes can be published, and a device key is
      published exactly when the priority table forces on it a value that
      is not `==` to the stored one. */
  lemma CascadeDiff(s: Snapshot)
    requires Ready(s)
    ensures s.Keys <= Cascade(s).Keys
    ensures Diff(s, Cascade(s)).Keys <= DeviceKeys
    ensures forall k | k in DeviceKeys :: k in Diff(s, Cascade(s)) <==>
      Forced(s, k).Some? && (k !in s || !PyEq(s[k], Forced(s, k).value))
  {
    CascadeTouchesOnlyDevices(s);
    CascadeFollowsPriority(s);
  }

  /** A second cycle over storage that the rules have already processed,
      with no new readings, publishes nothing. */
  lemma SteadyStateNoWrite(s: Snapshot)
    requires Ready(s)
    ensures Ready(Cascade(s))
    ensures Cascade(s).Keys <= Cascade(Cascade(s)).Keys
    ensures Diff(Cascade(s), Cascade(Cascade(s))) == map[]
  {
    CascadeIdempotent(s);
    DiffEmptyIff(Cascade(s), Cascade(s));
  }
}
