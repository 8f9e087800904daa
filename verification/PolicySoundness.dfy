/** The target policy against the planner: which accepted commands it still stops. */
module PolicySoundness {
  import opened Prelude
  import opened PyText
  import opened PyValues
  import opened PathTokens
  import opened ContextStore
  import opened ContextGuards
  import opened ConstantGraph
  import opened CommandPolicy
  import opened CommandRuntime
  import opened SectionSoundness

  /** A command of an accepted section passes the policy exactly when it carries no target path of
      its own or one that this kind of item may write; declared constants and results always
      pass. */
  lemma {:induction false} PlannedCommandPassesExactly(r: SectionRun, k: nat)
    requires Accepted(r) && KindFits(r) && k < |r.commands|
    ensures var cfg := r.commands[k].cfg;
            PolicyPasses(r.kind, cfg) <==> (cfg.InitConstant? && !Blank(cfg.target) ==> Passes(r.kind, cfg.target))
  {
    var cfg, declared := r.commands[k].cfg, Declarations(r.commands[k], r.section);
    DeclaresWritable(r, k);
    if declared != [] {
      assert declared[0].id in r.table && PlainRow(r.table[declared[0].id]);
    }
    if cfg.InitConstant? {
      InitPassesExactly(r.kind, cfg);
    } else {
      OthersPass(r.kind, cfg);
    }
  }

  const STRAY := RawCommand("1", Some(1), InitConstant("d", "x", Local, JsonArray, "$.global.constants.x"))

  /** A test may declare a local constant and carry a target below the global scope: the planner
      looks at the declared scope and accepts, the policy looks at the target and refuses. */
  lemma {:induction false} StrayTargetIsRefused()
    ensures Plan([STRAY], Test, map[]).Ok? && !PolicyPasses(TestItem, STRAY.cfg)
  {
    StrayIsPlanned();
    StrayTargetIsGlobal();
    assert "x"[0] == 'x' && PlainName("x");
    ConstantPathPasses(TestItem, Global, "x");
    InitPassesExactly(TestItem, STRAY.cfg);
  }

  lemma {:induction false} StrayIsPlanned()
    ensures Plan([STRAY], Test, map[]).Ok?
  {
    var c := Command("1", 1, STRAY.cfg);
    assert CommandInputs([STRAY]) == [c] && [c][..0] == [] && Sorted([]) == [];
    assert Schedule([STRAY]) == [c] && [c][1..] == [];
    assert CarryOver(map[]) == map[];
    assert CommandError(c, Test, map[]).None?;
    assert PlanFrom([], Test, Updated(c, Test, map[])).Ok?;
  }

  lemma {:induction false} StrayTargetIsGlobal()
    ensures STRAY.cfg.target == ConstantPath(Global, "x") && !Blank(STRAY.cfg.target)
  {
    assert "$." + "global" + ".constants." + "x" == "$.global.constants.x";
    TrimmedStrips("$.global.constants.x");
  }
}
