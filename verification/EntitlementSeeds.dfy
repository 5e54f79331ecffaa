/** The rows that the two earlier migrations seed, and what becomes of them when the
    register is installed and uninstalled. */
module EntitlementSeeds {
  import opened Seqs
  import opened Entitlements
  import opened EntitlementRegister

  const PHASE1 := [
    Spec("developer.api", Granted({"pro", "scale"})),
    Spec("developer.webhooks", Granted({"pro", "scale"})),
    Spec("routing.advanced", Granted({"pro", "scale"})),
    Spec("reporting.advanced", Granted({"pro", "scale"})),
    Spec("ai_receptionist.enabled", Granted({"pro", "scale"}))
  ]

  const PHASE2 := [
    Spec("team.members.enabled", Granted({"business", "pro", "scale"})),
    Spec("routing.business_hours", Granted({"business", "pro", "scale"})),
    Spec("routing.team", Granted({"business", "pro", "scale"})),
    Spec("routing.shared_handling", Granted({"business", "pro", "scale"})),
    Spec("reporting.business", Granted({"business", "pro", "scale"})),
    Spec("reporting.usage", Granted({"starter", "business", "pro", "scale"}))
  ]

  // ----- plans outermost -----

  function KeyRows(specs: seq<Spec>, plan: string, ids: nat -> string, n: nat): seq<Row> {
    if specs == [] then [] else [NewRow(ids(n), plan, specs[0].key, specs[0].value(plan))] + KeyRows(specs[1..], plan, ids, n + 1)
  }

  /** One row for each plan and key, plans outermost. */
  function PlanByPlan(specs: seq<Spec>, plans: seq<string>, ids: nat -> string, n: nat): seq<Row> {
    if plans == [] then [] else KeyRows(specs, plans[0], ids, n) + PlanByPlan(specs, plans[1..], ids, n + |specs|)
  }

  lemma {:induction false} AtKeyRows(specs: seq<Spec>, plan: string, ids: nat -> string, n: nat, p: string, k: string)
    ensures NoId(At(KeyRows(specs, plan, ids, n), p, k)) == if p == plan then SeedAt(specs, [plan], p, k) else None
  {
    if specs != [] { AtKeyRows(specs[1..], plan, ids, n + 1, p, k); }
  }

  lemma {:induction false} KeyRowsAreUnique(specs: seq<Spec>, plan: string, ids: nat -> string, n: nat)
    requires Apart(KeysOf(specs))
    ensures UniqueKeys(KeyRows(specs, plan, ids, n))
  {
    if specs != [] {
      assert KeysOf(specs)[1..] == KeysOf(specs[1..]);
      KeyRowsAreUnique(specs[1..], plan, ids, n + 1);
      AtKeyRows(specs[1..], plan, ids, n + 1, plan, specs[0].key);
      SpecForMembers(specs[1..], specs[0].key);
    }
  }

  lemma {:induction false} AtPlanByPlan(specs: seq<Spec>, plans: seq<string>, ids: nat -> string, n: nat, p: string, k: string)
    ensures NoId(At(PlanByPlan(specs, plans, ids, n), p, k)) == SeedAt(specs, plans, p, k)
  {
    if plans != [] {
      AtPlanByPlan(specs, plans[1..], ids, n + |specs|, p, k);
      AtKeyRows(specs, plans[0], ids, n, p, k);
      AtConcat(KeyRows(specs, plans[0], ids, n), PlanByPlan(specs, plans[1..], ids, n + |specs|), p, k);
    }
  }

  lemma {:induction false} PlanByPlanIsUnique(specs: seq<Spec>, plans: seq<string>, ids: nat -> string, n: nat)
    requires Apart(plans) && Apart(KeysOf(specs))
    ensures UniqueKeys(PlanByPlan(specs, plans, ids, n))
  {
    if plans != [] {
      var first, rest := KeyRows(specs, plans[0], ids, n), PlanByPlan(specs, plans[1..], ids, n + |specs|);
      KeyRowsAreUnique(specs, plans[0], ids, n);
      PlanByPlanIsUnique(specs, plans[1..], ids, n + |specs|);
      forall p, k ensures At(first, p, k).None? || At(rest, p, k).None? {
        AtKeyRows(specs, plans[0], ids, n, p, k);
        AtPlanByPlan(specs, plans[1..], ids, n + |specs|, p, k);
      }
      UniqueConcat(first, rest);
    }
  }

  // ----- the seeded table -----

  /** The table after both migrations. */
  function SeededTable(first: seq<Spec>, second: seq<Spec>, plans: seq<string>, ids: nat -> string, n: nat): seq<Row> {
    PlanByPlan(first, plans, ids, 0) + SeedRows(second, plans, ids, n)
  }

  lemma AtSeededTable(first: seq<Spec>, second: seq<Spec>, plans: seq<string>, ids: nat -> string, n: nat, p: string, k: string)
    ensures NoId(At(SeededTable(first, second, plans, ids, n), p, k)) == Else(SeedAt(first, plans, p, k), SeedAt(second, plans, p, k))
  {
    AtPlanByPlan(first, plans, ids, 0, p, k);
    AtSeedRows(second, plans, ids, n, p, k);
    AtConcat(PlanByPlan(first, plans, ids, 0), SeedRows(second, plans, ids, n), p, k);
  }

  lemma SeededTableIsUnique(first: seq<Spec>, second: seq<Spec>, plans: seq<string>, ids: nat -> string, n: nat)
    requires Apart(plans) && Apart(KeysOf(first)) && Apart(KeysOf(second)) && ApartFrom(KeysOf(first), KeysOf(second))
    ensures UniqueKeys(SeededTable(first, second, plans, ids, n))
  {
    var a, b := PlanByPlan(first, plans, ids, 0), SeedRows(second, plans, ids, n);
    PlanByPlanIsUnique(first, plans, ids, 0);
    SeedRowsAreUnique(second, plans, ids, n);
    forall p, k ensures At(a, p, k).None? || At(b, p, k).None? {
      AtPlanByPlan(first, plans, ids, 0, p, k);
      AtSeedRows(second, plans, ids, n, p, k);
      SpecForMembers(first, k);
      SpecForMembers(second, k);
    }
    UniqueConcat(a, b);
  }

  /** How two seedings have to fit a register: every seeded key is lost, restored or
      renamed, the lost ones are register keys, and what is restored is what was seeded. */
  ghost predicate Fits(first: seq<Spec>, second: seq<Spec>, lost: seq<string>, reg: Register) {
    && Apart(KeysOf(first)) && Apart(KeysOf(second)) && ApartFrom(KeysOf(first), KeysOf(second))
    && (forall k :: k in KeysOf(first) || k in KeysOf(second) ==> k in lost || k in KeysOf(reg.restored) || Leaves(reg.renames, k))
    && (forall k :: k in lost ==> k in KeysOf(reg.specs) && (k in KeysOf(first) || k in KeysOf(second)))
    && (forall s :: s in reg.restored ==> s in first || s in second)
  }

  lemma {:induction false} MemberIsFound(specs: seq<Spec>, s: Spec)
    requires Apart(KeysOf(specs)) && s in specs
    ensures SpecFor(specs, s.key) == Some(s) && s.key in KeysOf(specs)
  {
    var i :| 0 <= i < |specs| && specs[i] == s;
    SpecIsFound(specs, i);
  }

  lemma SeedsAreHeld(first: seq<Spec>, second: seq<Spec>, lost: seq<string>, reg: Register, ids: nat -> string, n: nat, p: string, k: string)
    requires WellFormed(reg) && Fits(first, second, lost, reg) && k in KeysOf(reg.restored)
    ensures NoId(At(SeededTable(first, second, reg.plans, ids, n), p, k)) == SeedAt(reg.restored, reg.plans, p, k)
  {
    AtSeededTable(first, second, reg.plans, ids, n, p, k);
    var i :| 0 <= i < |reg.restored| && reg.restored[i].key == k;
    var s := reg.restored[i];
    MemberIsFound(reg.restored, s);
    if s in first { MemberIsFound(first, s); } else { MemberIsFound(second, s); }
    SpecForMembers(first, k);
  }

  lemma OnlySeededKeys(first: seq<Spec>, second: seq<Spec>, lost: seq<string>, reg: Register, ids: nat -> string, n: nat, p: string, k: string)
    requires WellFormed(reg) && Fits(first, second, lost, reg)
    ensures var seeded := SeededTable(first, second, reg.plans, ids, n);
            && (SourceOf(reg.renames, k).Some? ==> At(seeded, p, k).None?)
            && (k in KeysOf(reg.specs) && k !in lost ==> At(seeded, p, k).None?)
            && (k in lost ==> (At(seeded, p, k).Some? <==> p in reg.plans))
  {
    AtSeededTable(first, second, reg.plans, ids, n, p, k);
    SpecForMembers(first, k);
    SpecForMembers(second, k);
    RenameKeysMembers(reg.renames, k);
    if SourceOf(reg.renames, k).Some? { NewNameStays(reg.renames, k); }
  }

  /** Installing and uninstalling a register over the seeds goes through, and drops
      exactly the rows of every plan at the lost keys. */
  lemma SeedsLoseExactly(first: seq<Spec>, second: seq<Spec>, lost: seq<string>, reg: Register,
                         ids: nat -> string, n: nat, ids': nat -> string, ids'': nat -> string)
    requires WellFormed(reg) && Fits(first, second, lost, reg)
    ensures var seeded := SeededTable(first, second, reg.plans, ids, n);
            var back := RoundTrip(reg, ids', ids'', seeded);
            && UniqueKeys(seeded) && NoTargetRows(reg, seeded) && HoldsSeeds(reg, seeded)
            && NoRowsAt(KeysOf(reg.specs), lost, seeded)
            && back.Some? && RestoredExcept(lost, reg, seeded, back.value)
            && forall p, k :: (At(seeded, p, k).Some? && At(back.value, p, k).None?) <==> (p in reg.plans && k in lost)
  {
    var seeded := SeededTable(first, second, reg.plans, ids, n);
    SeededTableIsUnique(first, second, reg.plans, ids, n);
    forall p, k
      ensures k in KeysOf(reg.restored) ==> NoId(At(seeded, p, k)) == SeedAt(reg.restored, reg.plans, p, k)
      ensures SourceOf(reg.renames, k).Some? ==> At(seeded, p, k).None?
      ensures k in KeysOf(reg.specs) && k !in lost ==> At(seeded, p, k).None?
      ensures k in lost ==> (At(seeded, p, k).Some? <==> p in reg.plans)
    {
      OnlySeededKeys(first, second, lost, reg, ids, n, p, k);
      if k in KeysOf(reg.restored) { SeedsAreHeld(first, second, lost, reg, ids, n, p, k); }
    }
    RoundTripRestoresExactly(lost, reg, ids', ids'', seeded);
    var back := RoundTrip(reg, ids', ids'', seeded).value;
    forall p, k ensures (At(seeded, p, k).Some? && At(back, p, k).None?) <==> (p in reg.plans && k in lost) {
      LostExactly(lost, reg, seeded, back, p, k);
    }
  }

  lemma LostExactly(lost: seq<string>, reg: Register, rows: seq<Row>, back: seq<Row>, p: string, k: string)
    requires RestoredExcept(lost, reg, rows, back)
    ensures (At(rows, p, k).Some? && At(back, p, k).None?) <==> (k in lost && At(rows, p, k).Some?)
  {
    assert if k in lost then At(back, p, k) == None
           else if k in KeysOf(reg.restored) then NoId(At(back, p, k)) == NoId(At(rows, p, k))
           else At(back, p, k) == At(rows, p, k);
  }

  // ----- the actual seeds -----

  const SEED_MARKS := [877665, 1205367, 1077878, 1208929, 1532271, 1340530,
                       1471091, 815713, 1536609, 1208930, 1012341]

  lemma SeedMarksDiffer(i: nat, j: nat)
    requires i < j < |SEED_MARKS|
    ensures SEED_MARKS[i] != SEED_MARKS[j]
  {
  }

  lemma SeedsAreMarked(i: nat)
    ensures i < |PHASE1| ==> Mark(PHASE1[i].key) == SEED_MARKS[i]
    ensures i < |PHASE2| ==> Mark(PHASE2[i].key) == SEED_MARKS[|PHASE1| + i]
  {
  }

  lemma {:induction false} DifferentMarksAreApart(keys: seq<string>)
    requires forall i, j :: 0 <= i < j < |keys| ==> Mark(keys[i]) != Mark(keys[j])
    ensures Apart(keys)
  {
    if keys != [] {
      DifferentMarksAreApart(keys[1..]);
      forall i | 1 <= i < |keys| ensures keys[0] != keys[i] {
        assert Mark(keys[0]) != Mark(keys[i]);
      }
    }
  }

  lemma SeedKeysAreApart()
    ensures Apart(KeysOf(PHASE1)) && Apart(KeysOf(PHASE2)) && ApartFrom(KeysOf(PHASE1), KeysOf(PHASE2))
  {
    var a, b := KeysOf(PHASE1), KeysOf(PHASE2);
    forall i, j | 0 <= i < j < |a| ensures Mark(a[i]) != Mark(a[j]) {
      SeedsAreMarked(i);
      SeedsAreMarked(j);
      SeedMarksDiffer(i, j);
    }
    forall i, j | 0 <= i < j < |b| ensures Mark(b[i]) != Mark(b[j]) {
      SeedsAreMarked(i);
      SeedsAreMarked(j);
      SeedMarksDiffer(|PHASE1| + i, |PHASE1| + j);
    }
    DifferentMarksAreApart(a);
    DifferentMarksAreApart(b);
    forall i, j | 0 <= i < |a| && 0 <= j < |b| ensures a[i] != b[j] {
      SeedsAreMarked(i);
      SeedsAreMarked(j);
      SeedMarksDiffer(i, |PHASE1| + j);
    }
  }

  lemma RestoredWereSeeded(s: Spec)
    requires s in RESTORED
    ensures s in PHASE1 || s in PHASE2
  {
    assert RESTORED[0] == PHASE1[0] && RESTORED[1] == PHASE1[1] && RESTORED[2] == PHASE1[4];
    assert RESTORED[3] == PHASE2[2] && RESTORED[4] == PHASE2[5];
  }

  lemma FirstSeedsPlayAPart(i: nat)
    requires i < |PHASE1|
    ensures PHASE1[i].key in LOST || PHASE1[i] in RESTORED
  {
    assert PHASE1[0] == RESTORED[0] && PHASE1[1] == RESTORED[1] && PHASE1[4] == RESTORED[2];
    assert PHASE1[2].key == LOST[0] && PHASE1[3].key == LOST[1];
  }

  lemma SecondSeedsPlayAPart(i: nat)
    requires i < |PHASE2|
    ensures PHASE2[i].key in LOST || PHASE2[i] in RESTORED || PHASE2[i].key == RENAMES[0].from || PHASE2[i].key == RENAMES[1].from
  {
    assert PHASE2[0].key == RENAMES[0].from && PHASE2[3].key == RENAMES[1].from;
    assert PHASE2[1].key == LOST[2] && PHASE2[4].key == LOST[3];
    assert PHASE2[2] == RESTORED[3] && PHASE2[5] == RESTORED[4];
  }

  lemma LostWereSeeded(k: string)
    requires k in LOST
    ensures k in KeysOf(PHASE1) || k in KeysOf(PHASE2)
  {
    if k == LOST[0] || k == LOST[1] {
      KeyAt(PHASE1, if k == LOST[0] then 2 else 3, k);
    } else {
      KeyAt(PHASE2, if k == LOST[2] then 1 else 4, k);
    }
  }

  lemma RestoredKeyIsKey(s: Spec)
    requires s in RESTORED
    ensures s.key in KeysOf(RESTORED)
  {
    var i :| 0 <= i < |RESTORED| && RESTORED[i] == s;
    assert KeysOf(RESTORED)[i] == s.key;
  }

  lemma RenamedKeysLeave()
    ensures Leaves(RENAMES, RENAMES[0].from) && Leaves(RENAMES, RENAMES[1].from)
  {
    OldNameLeaves(RENAMES, 0);
    OldNameLeaves(RENAMES, 1);
  }

  lemma SeedsFitRegister()
    ensures Fits(PHASE1, PHASE2, LOST, REGISTER)
  {
    SeedKeysAreApart();
    RenamedKeysLeave();
    forall k | k in KeysOf(PHASE1) || k in KeysOf(PHASE2)
      ensures k in LOST || k in KeysOf(RESTORED) || Leaves(RENAMES, k)
    {
      if k in KeysOf(PHASE1) {
        var i :| 0 <= i < |PHASE1| && PHASE1[i].key == k;
        FirstSeedsPlayAPart(i);
        if PHASE1[i] in RESTORED { RestoredKeyIsKey(PHASE1[i]); }
      } else {
        var i :| 0 <= i < |PHASE2| && PHASE2[i].key == k;
        SecondSeedsPlayAPart(i);
        if PHASE2[i] in RESTORED { RestoredKeyIsKey(PHASE2[i]); }
      }
    }
    forall k | k in LOST ensures k in KeysOf(SPECS) && (k in KeysOf(PHASE1) || k in KeysOf(PHASE2)) {
      LostKeysAreRegisterKeys(k);
      LostWereSeeded(k);
    }
    forall s | s in RESTORED ensures s in PHASE1 || s in PHASE2 {
      RestoredWereSeeded(s);
    }
  }

  /** The table that the two migrations leave meets every condition of `FourKeysAreLost`,
      and the rows missing after up and down are exactly the sixteen of the four plans at
      the four lost keys. */
  lemma SixteenRowsAreLost(ids: nat -> string, n: nat, ids': nat -> string, ids'': nat -> string)
    ensures var seeded := SeededTable(PHASE1, PHASE2, ALL_PLANS, ids, n);
            var back := RoundTrip(REGISTER, ids', ids'', seeded);
            && UniqueKeys(seeded) && NoTargetRows(REGISTER, seeded) && HoldsSeeds(REGISTER, seeded)
            && NoRowsAt(KeysOf(SPECS), LOST, seeded)
            && back.Some? && RestoredExcept(LOST, REGISTER, seeded, back.value)
            && forall p, k :: (At(seeded, p, k).Some? && At(back.value, p, k).None?) <==> (p in ALL_PLANS && k in LOST)
  {
    RegisterIsWellFormed();
    SeedsFitRegister();
    SeedsLoseExactly(PHASE1, PHASE2, LOST, REGISTER, ids, n, ids', ids'');
  }
}
