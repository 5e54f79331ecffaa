/** The entitlement register that the migration installs. */
module EntitlementRegister {
  import opened Entitlements

  function Granted(plans: set<string>): string -> Value {
    (p: string) => BoolV(p in plans)
  }

  function Graded(starter: string, business: string, pro: string, scale: string): string -> Value {
    (p: string) => StrV(if p == "starter" then starter else if p == "business" then business else if p == "pro" then pro else scale)
  }

  const ALL_PLANS := ["starter", "business", "pro", "scale"]

  const SPECS := [
    Spec("number.additional.purchase_eligible", Granted({"starter", "business", "pro", "scale"})),
    Spec("number.assignment.team", Granted({"business", "pro", "scale"})),
    Spec("voice.app_to_app", Granted({"starter", "business", "pro", "scale"})),
    Spec("voice.pstn.allowed", Granted({"starter", "business", "pro", "scale"})),
    Spec("voice.pstn.rating_mode", Graded("metered", "metered", "metered", "metered")),
    Spec("voicemail.enabled", Granted({"starter", "business", "pro", "scale"})),
    Spec("voicemail.summary", Granted({"starter", "business", "pro", "scale"})),
    Spec("routing.forwarding", Granted({"starter", "business", "pro", "scale"})),
    Spec("routing.business_hours", Granted({"business", "pro", "scale"})),
    Spec("routing.transfer", Granted({"business", "pro", "scale"})),
    Spec("routing.advanced", Granted({"pro", "scale"})),
    Spec("routing.multi_market", Granted({"scale"})),
    Spec("messaging.enabled", Granted({"starter", "business", "pro", "scale"})),
    Spec("messaging.shared_team", Granted({"business", "pro", "scale"})),
    Spec("team.roles.standard", Granted({"business", "pro", "scale"})),
    Spec("admin.advanced_roles", Granted({"scale"})),
    Spec("usage.visibility.tier", Graded("basic", "standard", "advanced", "multi_market")),
    Spec("reporting.business", Granted({"business", "pro", "scale"})),
    Spec("reporting.advanced", Granted({"pro", "scale"})),
    Spec("analytics.cross_market", Granted({"scale"})),
    Spec("developer.api.scope", Graded("none", "limited", "standard", "advanced")),
    Spec("developer.webhooks.scope", Graded("none", "limited", "standard", "advanced")),
    Spec("recording.policy_enabled", Granted({"starter", "business", "pro", "scale"})),
    Spec("transcription.policy_enabled", Granted({"starter", "business", "pro", "scale"})),
    Spec("audit.customer_visible.tier", Graded("basic", "standard", "advanced", "multi_market")),
    Spec("compliance.workspace_controls.tier", Graded("baseline", "standard", "advanced", "multi_market")),
    Spec("support.tier", Graded("standard", "standard", "priority", "priority_onboarding")),
    Spec("admin.multi_market", Granted({"scale"})),
    Spec("sema.bundle_entitlement", Granted({}))
  ]

  const RESTORED := [
    Spec("developer.api", Granted({"pro", "scale"})),
    Spec("developer.webhooks", Granted({"pro", "scale"})),
    Spec("ai_receptionist.enabled", Granted({"pro", "scale"})),
    Spec("routing.team", Granted({"business", "pro", "scale"})),
    Spec("reporting.usage", Granted({"starter", "business", "pro", "scale"}))
  ]

  const RENAMES := [
    Rename("team.members.enabled", "team.enabled"),
    Rename("routing.shared_handling", "routing.shared")
  ]

  const REMOVED := ["routing.team", "reporting.usage", "developer.api", "developer.webhooks", "ai_receptionist.enabled"]

  const REGISTER := Register(ALL_PLANS, SPECS, REMOVED, RENAMES, RESTORED)

  /** The register keys that earlier migrations had seeded and no downgrade restores. */
  const LOST := ["routing.advanced", "reporting.advanced", "routing.business_hours", "reporting.business"]

  // ----- the register is well formed -----

  /** Keys are told apart by their length and two of their characters. */
  function Mark(key: string): int {
    if |key| > 10 then |key| * 65536 + key[0] as int * 256 + key[10] as int else 0
  }

  /** The marks of the register keys, then of the restored and of the renamed keys. */
  const MARKS := [
      2322025, 1470057, 1078900, 1209902, 1472046, 1144421, 1144435, 1208946, 1471091, 1077857, 1077878,
      1340012, 1142117, 1404275, 1274926, 1335662, 1406306, 1208930, 1208929, 1466723, 1270881, 1598583,
      1602160, 1864809, 1794415, 2253614, 815973, 1204585, 1536869, 877665, 1205367, 1532271, 815713, 1012341,
      1340530, 816229, 1536609, 946785
  ]

  lemma EarlyMarksDiffer(i: nat, j: nat)
    requires i < j < |MARKS| && i < 12
    ensures MARKS[i] != MARKS[j]
  {
  }

  lemma LateMarksDiffer(i: nat, j: nat)
    requires 12 <= i < j < |MARKS|
    ensures MARKS[i] != MARKS[j]
  {
  }

  lemma MarksDiffer(i: nat, j: nat)
    requires i < |MARKS| && j < |MARKS| && i != j
    ensures MARKS[i] != MARKS[j]
  {
    var low, high := if i < j then i else j, if i < j then j else i;
    if low < 12 { EarlyMarksDiffer(low, high); } else { LateMarksDiffer(low, high); }
  }

  ghost predicate Marked(keys: seq<string>, first: nat) {
    first + |keys| <= |MARKS| && forall i :: 0 <= i < |keys| ==> Mark(keys[i]) == MARKS[first + i]
  }

  lemma {:induction false} MarkedAreApart(keys: seq<string>, first: nat)
    requires Marked(keys, first)
    ensures Apart(keys)
  {
    if keys != [] {
      MarkedAreApart(keys[1..], first + 1);
      forall i | 1 <= i < |keys| ensures keys[0] != keys[i] {
        MarksDiffer(first, first + i);
      }
    }
  }

  lemma MarkedAreApartFrom(a: seq<string>, first: nat, b: seq<string>, first': nat)
    requires Marked(a, first) && Marked(b, first') && first + |a| <= first'
    ensures ApartFrom(a, b) && ApartFrom(b, a)
  {
    forall i, j | 0 <= i < |a| && 0 <= j < |b| ensures a[i] != b[j] {
      MarksDiffer(first + i, first' + j);
    }
  }

  lemma FirstSpecsAreMarked(i: nat)
    requires i < 10
    ensures Mark(SPECS[i].key) == MARKS[i]
  {
  }

  lemma MiddleSpecsAreMarked(i: nat)
    requires 10 <= i < 20
    ensures Mark(SPECS[i].key) == MARKS[i]
  {
  }

  lemma LastSpecsAreMarked(i: nat)
    requires 20 <= i < |SPECS|
    ensures Mark(SPECS[i].key) == MARKS[i]
  {
  }

  lemma SpecsAreMarked()
    ensures Marked(KeysOf(SPECS), 0)
  {
    forall i | 0 <= i < |SPECS| ensures Mark(KeysOf(SPECS)[i]) == MARKS[i] {
      if i < 10 { FirstSpecsAreMarked(i); } else if i < 20 { MiddleSpecsAreMarked(i); } else { LastSpecsAreMarked(i); }
    }
  }

  lemma RestoredAreMarked()
    ensures Marked(KeysOf(RESTORED), |SPECS|)
  {
    forall i | 0 <= i < |RESTORED| ensures Mark(KeysOf(RESTORED)[i]) == MARKS[|SPECS| + i] {
    }
  }

  lemma RenamesAreMarked()
    ensures Marked(RenameKeys(RENAMES), |SPECS| + |RESTORED|)
  {
    assert RENAMES[1..][1..] == [];
    assert RenameKeys(RENAMES) == ["team.members.enabled", "team.enabled", "routing.shared_handling", "routing.shared"];
  }

  lemma RemovedAreRestored(k: string)
    ensures k in REMOVED <==> k in KeysOf(RESTORED)
  {
    var keys := KeysOf(RESTORED);
    assert keys == [RESTORED[0].key, RESTORED[1].key, RESTORED[2].key, RESTORED[3].key, RESTORED[4].key];
    assert keys == [REMOVED[2], REMOVED[3], REMOVED[4], REMOVED[0], REMOVED[1]];
  }

  lemma PlansAreApart()
    ensures Apart(ALL_PLANS)
  {
    assert |ALL_PLANS[0]| == 7 && |ALL_PLANS[1]| == 8 && |ALL_PLANS[2]| == 3 && |ALL_PLANS[3]| == 5;
  }

  /** What is proved of well-formed registers holds of this one. */
  lemma RegisterIsWellFormed()
    ensures WellFormed(REGISTER)
  {
    PlansAreApart();
    SpecsAreMarked();
    RestoredAreMarked();
    RenamesAreMarked();
    var specs, restored, renamed := KeysOf(SPECS), KeysOf(RESTORED), RenameKeys(RENAMES);
    MarkedAreApart(specs, 0);
    MarkedAreApart(restored, |SPECS|);
    MarkedAreApart(renamed, |SPECS| + |RESTORED|);
    MarkedAreApartFrom(specs, 0, restored, |SPECS|);
    MarkedAreApartFrom(specs, 0, renamed, |SPECS| + |RESTORED|);
    MarkedAreApartFrom(restored, |SPECS|, renamed, |SPECS| + |RESTORED|);
    forall k ensures k in REMOVED <==> k in restored {
      RemovedAreRestored(k);
    }
  }

  lemma KeyAt(specs: seq<Spec>, i: nat, key: string)
    requires i < |specs| && specs[i].key == key
    ensures key in KeysOf(specs)
  {
    assert KeysOf(specs)[i] == key;
  }

  lemma LostKeysAreRegisterKeys(k: string)
    requires k in LOST
    ensures k in KeysOf(SPECS)
  {
    KeyAt(SPECS, if k == LOST[0] then 10 else if k == LOST[1] then 18 else if k == LOST[2] then 8 else 17, k);
  }

  /** The migration and its downgrade together lose exactly the rows of the four lost
      keys, and give new ids to those of the removed keys, if and only if the table held
      the seeds, nothing under the new names, and nothing else at register keys. */
  lemma FourKeysAreLost(ids: nat -> string, ids': nat -> string, rows: seq<Row>)
    requires UniqueKeys(rows)
    ensures var back := RoundTrip(REGISTER, ids, ids', rows);
            (back.Some? && RestoredExcept(LOST, REGISTER, rows, back.value)) <==>
            NoTargetRows(REGISTER, rows) && HoldsSeeds(REGISTER, rows) && NoRowsAt(KeysOf(SPECS), LOST, rows)
  {
    RegisterIsWellFormed();
    forall k | k in LOST ensures k in KeysOf(SPECS) {
      LostKeysAreRegisterKeys(k);
    }
    RoundTripRestoresExactly(LOST, REGISTER, ids, ids', rows);
  }

  // ----- who gets what -----

  /** For each key with truth values, the first plan that is granted it; 4 for none. */
  const FIRST_GRANTED := [0, 1, 0, 0, 0, 0, 0, 0, 1, 1, 2, 3, 0, 1, 1, 3, 0, 1, 2, 3, 0, 0, 0, 0, 0, 0, 0, 3, 4]

  /** The keys with graded values. */
  const GRADED: set<nat> := {4, 16, 20, 21, 24, 25, 26}

  lemma FirstGrantsAreUpward(i: nat, p: nat)
    requires i < 10 && p < |ALL_PLANS| && i !in GRADED
    ensures SPECS[i].value(ALL_PLANS[p]) == BoolV(p >= FIRST_GRANTED[i])
  {
  }

  lemma MiddleGrantsAreUpward(i: nat, p: nat)
    requires 10 <= i < 20 && p < |ALL_PLANS| && i !in GRADED
    ensures SPECS[i].value(ALL_PLANS[p]) == BoolV(p >= FIRST_GRANTED[i])
  {
  }

  lemma LastGrantsAreUpward(i: nat, p: nat)
    requires 20 <= i < |SPECS| && p < |ALL_PLANS| && i !in GRADED
    ensures SPECS[i].value(ALL_PLANS[p]) == BoolV(p >= FIRST_GRANTED[i])
  {
  }

  /** A key with truth values is granted from its first plan upward, in the order starter,
      business, pro, scale: no plan lacks what a smaller one has. */
  lemma GrantsAreUpward(i: nat, p: nat)
    requires i < |SPECS| && p < |ALL_PLANS| && i !in GRADED
    ensures SPECS[i].value(ALL_PLANS[p]) == BoolV(p >= FIRST_GRANTED[i])
  {
    if i < 10 { FirstGrantsAreUpward(i, p); } else if i < 20 { MiddleGrantsAreUpward(i, p); } else { LastGrantsAreUpward(i, p); }
  }

  lemma GradesByPlan(a: string, b: string, c: string, d: string, p: nat)
    requires p < |ALL_PLANS|
    ensures Graded(a, b, c, d)(ALL_PLANS[p]) == StrV([a, b, c, d][p])
  {
  }

  /** The graded keys, plan by plan. */
  lemma GradesAre(p: nat)
    requires p < |ALL_PLANS|
    ensures SPECS[4].value(ALL_PLANS[p]) == StrV(["metered", "metered", "metered", "metered"][p])
    ensures SPECS[16].value(ALL_PLANS[p]) == StrV(["basic", "standard", "advanced", "multi_market"][p])
    ensures SPECS[20].value(ALL_PLANS[p]) == StrV(["none", "limited", "standard", "advanced"][p])
    ensures SPECS[21].value(ALL_PLANS[p]) == StrV(["none", "limited", "standard", "advanced"][p])
    ensures SPECS[24].value(ALL_PLANS[p]) == StrV(["basic", "standard", "advanced", "multi_market"][p])
    ensures SPECS[25].value(ALL_PLANS[p]) == StrV(["baseline", "standard", "advanced", "multi_market"][p])
    ensures SPECS[26].value(ALL_PLANS[p]) == StrV(["standard", "standard", "priority", "priority_onboarding"][p])
  {
    GradesByPlan("metered", "metered", "metered", "metered", p);
    GradesByPlan("basic", "standard", "advanced", "multi_market", p);
    GradesByPlan("none", "limited", "standard", "advanced", p);
    GradesByPlan("none", "limited", "standard", "advanced", p);
    GradesByPlan("basic", "standard", "advanced", "multi_market", p);
    GradesByPlan("baseline", "standard", "advanced", "multi_market", p);
    GradesByPlan("standard", "standard", "priority", "priority_onboarding", p);
  }
}
