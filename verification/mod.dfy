/**
 * The bot-health pass of the mod: every body-part health range of every bot
 * type is clamped in place at the player's maximum for that body part.
 */
module BossFairnessMod {
  import opened Wrappers
  import opened BotHealth

  /**
   * A record after the pass: no spread, at most the player's maximum for its
   * part and at most its old minimum.
   */
  predicate Settled(o: MinMax, maximum: real, oldMin: real)
    reads o
  {
    o.Min == o.Max && o.Min <= maximum && o.Min <= oldMin
  }

  /**
   * Clamps one record in place: both fields become the smaller of its old
   * minimum and `clampAt`. The ghost set `tracked` names records the caller
   * follows; each of them ends as one `Step` of this call leaves it (only
   * `botHealth` itself can change).
   */
  method SetAdjustedValue(botHealth: MinMax, clampAt: real, ghost tracked: set<MinMax>)
    modifies botHealth
    ensures botHealth.Value() == Clamped(old(botHealth.Value()), clampAt)
    ensures forall m {:trigger m.Value()} :: m in tracked ==> m.Value() == Step(Slot(botHealth, clampAt), m, old(m.Value()))
    ensures botHealth.Min == botHealth.Max
    ensures botHealth.Min <= clampAt && botHealth.Min <= old(botHealth.Min)
    ensures old(botHealth.Min) <= clampAt ==> botHealth.Min == old(botHealth.Min)
  {
    var newValue := MinOf(botHealth.Min, clampAt);
    botHealth.Min := newValue;
    botHealth.Max := newValue;
  }

  /**
   * The body of the inner loop: the seven parts of one group, each clamped at
   * the player's maximum for that part, in source order. Every record in
   * `tracked` ends as the group's calls leave it, so a record shared by two
   * parts sees both clamps. Records that held what the calls `done` made of
   * `init` then hold what `done` followed by this group's calls make of it.
   */
  method AdjustGroup(bodyPart: BodyPartsGroup, playerHealth: PlayerMaxima, ghost tracked: set<MinMax>,
                     ghost done: seq<Slot>, ghost init: map<MinMax, MinMaxValue>)
    requires forall bp :: bodyPart.Part(bp) in tracked
    requires Reflects(tracked, done, init)
    modifies tracked
    ensures forall m {:trigger m.Value()} :: m in tracked ==>
              m.Value() == Apply(GroupSlots(bodyPart, playerHealth), m, old(m.Value()))
    ensures Reflects(tracked, done + GroupSlots(bodyPart, playerHealth), init)
  {
    assert bodyPart.Part(Chest) in tracked && bodyPart.Part(Head) in tracked;
    assert bodyPart.Part(Stomach) in tracked && bodyPart.Part(LeftLeg) in tracked;
    assert bodyPart.Part(RightLeg) in tracked && bodyPart.Part(LeftArm) in tracked;
    assert bodyPart.Part(RightArm) in tracked;
    SetAdjustedValue(bodyPart.Chest, playerHealth.Chest, tracked);
    SetAdjustedValue(bodyPart.Head, playerHealth.Head, tracked);
    SetAdjustedValue(bodyPart.Stomach, playerHealth.Stomach, tracked);
    SetAdjustedValue(bodyPart.LeftLeg, playerHealth.LeftLeg, tracked);
    SetAdjustedValue(bodyPart.RightLeg, playerHealth.RightLeg, tracked);
    SetAdjustedValue(bodyPart.LeftArm, playerHealth.LeftArm, tracked);
    SetAdjustedValue(bodyPart.RightArm, playerHealth.RightArm, tracked);
    var group := GroupSlots(bodyPart, playerHealth);
    forall m | m in tracked
      ensures m.Value() == Apply(group, m, old(m.Value()))
    {
      ApplyGroup([], bodyPart, playerHealth, m, old(m.Value()));
      assert [] + group == group;
    }
    forall m | m in tracked && m in init
      ensures m.Value() == Apply(done + group, m, init[m])
    {
      assert old(m.Value()) == Apply(done, m, init[m]);
      ApplyAppend(done, group, m, init[m]);
    }
  }

  /**
   * The inner loop: every group of one bot type in turn. Records that held
   * what the calls `done` made of `init` then hold what `done` followed by the
   * calls for these groups make of it.
   */
  method AdjustBotType(groups: seq<BodyPartsGroup>, playerHealth: PlayerMaxima, ghost tracked: set<MinMax>,
                       ghost done: seq<Slot>, ghost init: map<MinMax, MinMaxValue>)
    requires forall j, bp :: 0 <= j < |groups| ==> groups[j].Part(bp) in tracked
    requires Reflects(tracked, done, init)
    modifies tracked
    ensures Reflects(tracked, done + BotTypeSlots(groups, playerHealth), init)
  {
    assert groups[..0] == [] && done + [] == done;
    for j := 0 to |groups|
      invariant Reflects(tracked, done + BotTypeSlots(groups[..j], playerHealth), init)
    {
      var bodyPart := groups[j];
      AdjustGroup(bodyPart, playerHealth, tracked, done + BotTypeSlots(groups[..j], playerHealth), init);
      BotTypeSlotsPrefix(groups, playerHealth, j);
      assert done + BotTypeSlots(groups[..j], playerHealth) + GroupSlots(bodyPart, playerHealth)
          == done + BotTypeSlots(groups[..j + 1], playerHealth);
    }
    assert groups[..|groups|] == groups;
  }

  /**
   * Walks the bot-type table, skips null entries and clamps the seven parts of
   * every body-part group at the player's maxima. Every record the pass writes
   * ends as `Apply` of the pass's calls to its old value; no other record is
   * written.
   */
  method SetBotHealth(types: seq<Option<BotType>>, playerHealth: PlayerMaxima)
    modifies Footprint(PassSlots(types, playerHealth))
    ensures forall m :: m in Footprint(PassSlots(types, playerHealth)) && old(allocated(m)) ==>
              m.Value() == Apply(PassSlots(types, playerHealth), m, old(m.Value()))
    ensures forall i, j, bp :: Visited(types, i, j) ==>
              Settled(types[i].value.BodyParts[j].Part(bp), playerHealth.Maximum(bp),
                      old(types[i].value.BodyParts[j].Part(bp).Min))
  {
    ghost var fp := Footprint(PassSlots(types, playerHealth));
    ghost var init := Values(fp);
    assert types[..0] == [];
    for i := 0 to |types|
      invariant Reflects(fp, PassSlots(types[..i], playerHealth), init)
    {
      PassSlotsPrefix(types, playerHealth, i);
      var botType := types[i];
      if botType == None {
        continue;
      }
      var groups := botType.value.BodyParts;
      forall j, bp | 0 <= j < |groups|
        ensures groups[j].Part(bp) in fp
      {
        PassFootprintCover(types, playerHealth, i, j, bp);
      }
      AdjustBotType(groups, playerHealth, fp, PassSlots(types[..i], playerHealth), init);
    }
    assert types[..|types|] == types;
    forall m | m in fp && old(allocated(m))
      ensures m.Value() == Apply(PassSlots(types, playerHealth), m, old(m.Value()))
    {
      assert init[m] == old(m.Value());
    }
    forall i, j, bp | Visited(types, i, j)
      ensures Settled(types[i].value.BodyParts[j].Part(bp), playerHealth.Maximum(bp),
                      old(types[i].value.BodyParts[j].Part(bp).Min))
    {
      var o := types[i].value.BodyParts[j].Part(bp);
      PassFootprintCover(types, playerHealth, i, j, bp);
      assert o.Value() == Apply(PassSlots(types, playerHealth), o, old(o.Value()));
      PassClampsEveryPart(types, playerHealth, i, j, bp, old(o.Value()));
    }
  }
}
