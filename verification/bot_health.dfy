/**
 * Data model of the bot-health pass and its value-level specification.
 *
 * A `MinMax` record is the only thing the pass writes to. Several body-part
 * slots may refer to the same record, so the pass is specified as a sequence of
 * `Slot`s (a record and the value it is clamped at), listed in the order the
 * source makes its calls, and `Apply` gives the effect of such a sequence on one
 * record.
 */
module BotHealth {
  import opened Wrappers

  /** The seven fixed body parts. */
  datatype BodyPart = Chest | Head | Stomach | LeftLeg | RightLeg | LeftArm | RightArm

  /** A snapshot of the two fields of a `MinMax` record. */
  datatype MinMaxValue = MinMaxValue(Min: real, Max: real)

  /** The mutable health range of one body part of one bot health profile. */
  class MinMax {
    var Min: real
    var Max: real

    constructor(min: real, max: real)
      ensures Min == min && Max == max
    {
      Min := min;
      Max := max;
    }

    function Value(): MinMaxValue
      reads this
    {
      MinMaxValue(Min, Max)
    }
  }

  /** One body-part health group of a bot type: a reference per body part. */
  datatype BodyPartsGroup = BodyPartsGroup(
    Chest: MinMax, Head: MinMax, Stomach: MinMax,
    LeftLeg: MinMax, RightLeg: MinMax, LeftArm: MinMax, RightArm: MinMax)
  {
    function Part(bp: BodyPart): MinMax {
      match bp
      case Chest => this.Chest
      case Head => this.Head
      case Stomach => this.Stomach
      case LeftLeg => this.LeftLeg
      case RightLeg => this.RightLeg
      case LeftArm => this.LeftArm
      case RightArm => this.RightArm
    }
  }

  /** A bot type; the source reaches its groups through `BotHealth.BodyParts`. */
  datatype BotType = BotType(BodyParts: seq<BodyPartsGroup>)

  /** The player's maximum health per body part. */
  datatype PlayerMaxima = PlayerMaxima(
    Chest: real, Head: real, Stomach: real,
    LeftLeg: real, RightLeg: real, LeftArm: real, RightArm: real)
  {
    function Maximum(bp: BodyPart): real {
      match bp
      case Chest => this.Chest
      case Head => this.Head
      case Stomach => this.Stomach
      case LeftLeg => this.LeftLeg
      case RightLeg => this.RightLeg
      case LeftArm => this.LeftArm
      case RightArm => this.RightArm
    }
  }

  /** `Math.Min` on reals: the smaller of the two arguments. */
  function MinOf(a: real, b: real): (r: real)
    ensures r <= a && r <= b
    ensures r == a || r == b
  {
    if b < a then b else a
  }

  /**
   * The new value of a record clamped at `clampAt`: the spread is collapsed,
   * the minimum is never raised and never exceeds the clamp, and only the old
   * minimum matters (the contract fixes `r` from `cur.Min` and `clampAt` alone).
   */
  function Clamped(cur: MinMaxValue, clampAt: real): (r: MinMaxValue)
    ensures r.Min == r.Max
    ensures r.Min <= clampAt && r.Min <= cur.Min
    ensures r.Min == cur.Min || r.Min == clampAt
    ensures cur.Min <= clampAt ==> r.Min == cur.Min
  {
    var v := MinOf(cur.Min, clampAt);
    MinMaxValue(v, v)
  }

  /** One `SetAdjustedValue` call: the record written and the value it is clamped at. */
  datatype Slot = Slot(target: MinMax, clampAt: real)

  /** The records a sequence of calls writes. */
  ghost function Footprint(s: seq<Slot>): (r: set<MinMax>)
    ensures forall x :: x in s ==> x.target in r
    ensures r == {} <==> s == []
  {
    if s == [] then {} else Footprint(s[..|s| - 1]) + {s[|s| - 1].target}
  }

  /** The effect of one call on record `m`, whose value was `v`. */
  function Step(x: Slot, m: MinMax, v: MinMaxValue): (r: MinMaxValue)
    ensures x.target != m ==> r == v
    ensures x.target == m ==> r.Min == r.Max && r.Min <= x.clampAt && r.Min <= v.Min
  {
    if x.target == m then Clamped(v, x.clampAt) else v
  }

  /** The effect of a sequence of calls, made in order, on record `m` that started at `v`. */
  function Apply(s: seq<Slot>, m: MinMax, v: MinMaxValue): (r: MinMaxValue)
    ensures r.Min <= v.Min
    ensures r.Max == v.Max || r.Max == r.Min
  {
    if s == [] then v else Step(s[|s| - 1], m, Apply(s[..|s| - 1], m, v))
  }

  /** The current values of some records. */
  ghost function Values(records: set<MinMax>): map<MinMax, MinMaxValue>
    reads records
  {
    map m | m in records :: m.Value()
  }

  /**
   * Every record in `records` holds what the calls `s` make of its value in
   * `init`.
   */
  ghost predicate Reflects(records: set<MinMax>, s: seq<Slot>, init: map<MinMax, MinMaxValue>)
    reads records
  {
    forall m {:trigger m.Value()} :: m in records && m in init ==> m.Value() == Apply(s, m, init[m])
  }

  /** The seven calls made for one group, in source order. */
  function GroupSlots(g: BodyPartsGroup, p: PlayerMaxima): (r: seq<Slot>)
    ensures |r| == 7
    ensures forall bp :: Slot(g.Part(bp), p.Maximum(bp)) in r
  {
    [Slot(g.Chest, p.Chest), Slot(g.Head, p.Head), Slot(g.Stomach, p.Stomach),
     Slot(g.LeftLeg, p.LeftLeg), Slot(g.RightLeg, p.RightLeg),
     Slot(g.LeftArm, p.LeftArm), Slot(g.RightArm, p.RightArm)]
  }

  /** The calls made for the groups of one bot type, group by group. */
  function BotTypeSlots(groups: seq<BodyPartsGroup>, p: PlayerMaxima): (r: seq<Slot>)
    ensures |r| == 7 * |groups|
  {
    if groups == [] then []
    else BotTypeSlots(groups[..|groups| - 1], p) + GroupSlots(groups[|groups| - 1], p)
  }

  /** Whether entry `i` of the bot-type table is non-null and has a group `j`. */
  predicate Visited(types: seq<Option<BotType>>, i: int, j: int) {
    0 <= i < |types| && types[i].Some? && 0 <= j < |types[i].value.BodyParts|
  }

  /** The calls made for one entry of the bot-type table: none for a null entry. */
  function EntrySlots(entry: Option<BotType>, p: PlayerMaxima): (r: seq<Slot>)
    ensures entry.None? ==> r == []
    ensures entry.Some? ==> |r| == 7 * |entry.value.BodyParts|
  {
    match entry
    case None => []
    case Some(botType) => BotTypeSlots(botType.BodyParts, p)
  }

  /** The calls the whole pass makes, entry by entry; they come in whole groups of seven. */
  function PassSlots(types: seq<Option<BotType>>, p: PlayerMaxima): (r: seq<Slot>)
    ensures |r| % 7 == 0
  {
    if types == [] then []
    else PassSlots(types[..|types| - 1], p) + EntrySlots(types[|types| - 1], p)
  }

  // ---------------------------------------------------------------------------
  // Which calls the pass makes.
  // ---------------------------------------------------------------------------

  /** Every part of every group of a bot type is clamped at the matching maximum. */
  lemma {:induction false} BotTypeSlotsCover(groups: seq<BodyPartsGroup>, p: PlayerMaxima, j: nat, bp: BodyPart)
    requires j < |groups|
    ensures Slot(groups[j].Part(bp), p.Maximum(bp)) in BotTypeSlots(groups, p)
  {
    var n := |groups| - 1;
    if j < n {
      BotTypeSlotsCover(groups[..n], p, j, bp);
    }
  }

  /**
   * Every part of every group of every non-null bot type is clamped at the
   * player's maximum for that part.
   */
  lemma {:induction false} PassSlotsCover(types: seq<Option<BotType>>, p: PlayerMaxima, i: nat, j: nat, bp: BodyPart)
    requires Visited(types, i, j)
    ensures Slot(types[i].value.BodyParts[j].Part(bp), p.Maximum(bp)) in PassSlots(types, p)
  {
    var n := |types| - 1;
    if i < n {
      assert Visited(types[..n], i, j);
      PassSlotsCover(types[..n], p, i, j, bp);
    } else {
      BotTypeSlotsCover(types[i].value.BodyParts, p, j, bp);
    }
  }

  /** A record is in the footprint exactly when some call targets it. */
  lemma {:induction false} FootprintMember(s: seq<Slot>, m: MinMax)
    ensures m in Footprint(s) <==> exists x :: x in s && x.target == m
  {
    if s != [] {
      var n := |s| - 1;
      assert s == s[..n] + [s[n]];
      FootprintMember(s[..n], m);
    }
  }

  /** Every part record of every visited group is written by the pass. */
  lemma PassFootprintCover(types: seq<Option<BotType>>, p: PlayerMaxima, i: nat, j: nat, bp: BodyPart)
    requires Visited(types, i, j)
    ensures types[i].value.BodyParts[j].Part(bp) in Footprint(PassSlots(types, p))
  {
    PassSlotsCover(types, p, i, j, bp);
    var x := Slot(types[i].value.BodyParts[j].Part(bp), p.Maximum(bp));
    FootprintMember(PassSlots(types, p), x.target);
  }

  /** The calls of the first `j + 1` groups extend those of the first `j`. */
  lemma BotTypeSlotsPrefix(groups: seq<BodyPartsGroup>, p: PlayerMaxima, j: nat)
    requires j < |groups|
    ensures BotTypeSlots(groups[..j + 1], p) == BotTypeSlots(groups[..j], p) + GroupSlots(groups[j], p)
  {
    assert groups[..j + 1][..j] == groups[..j];
  }

  /** The calls for the first `i + 1` bot types extend those for the first `i`. */
  lemma PassSlotsPrefix(types: seq<Option<BotType>>, p: PlayerMaxima, i: nat)
    requires i < |types|
    ensures types[i].None? ==> PassSlots(types[..i + 1], p) == PassSlots(types[..i], p)
    ensures types[i].Some? ==>
              PassSlots(types[..i + 1], p) == PassSlots(types[..i], p) + BotTypeSlots(types[i].value.BodyParts, p)
  {
    assert types[..i + 1][..i] == types[..i];
    assert PassSlots(types[..i], p) + [] == PassSlots(types[..i], p);
  }

  // ---------------------------------------------------------------------------
  // Where each call of the pass comes from.
  // ---------------------------------------------------------------------------

  /** Every call made for a group clamps one of its seven parts at the matching maximum. */
  lemma GroupSlotOrigin(g: BodyPartsGroup, p: PlayerMaxima, x: Slot) returns (bp: BodyPart)
    requires x in GroupSlots(g, p)
    ensures x == Slot(g.Part(bp), p.Maximum(bp))
  {
    if x.target == g.Chest && x.clampAt == p.Chest { bp := Chest; }
    else if x.target == g.Head && x.clampAt == p.Head { bp := Head; }
    else if x.target == g.Stomach && x.clampAt == p.Stomach { bp := Stomach; }
    else if x.target == g.LeftLeg && x.clampAt == p.LeftLeg { bp := LeftLeg; }
    else if x.target == g.RightLeg && x.clampAt == p.RightLeg { bp := RightLeg; }
    else if x.target == g.LeftArm && x.clampAt == p.LeftArm { bp := LeftArm; }
    else { bp := RightArm; }
  }

  /** Every call made for a bot type clamps some part of one of its groups at the matching maximum. */
  lemma {:induction false} BotTypeSlotOrigin(groups: seq<BodyPartsGroup>, p: PlayerMaxima, x: Slot)
    returns (j: nat, bp: BodyPart)
    requires x in BotTypeSlots(groups, p)
    ensures j < |groups| && x == Slot(groups[j].Part(bp), p.Maximum(bp))
  {
    var n := |groups| - 1;
    if x in BotTypeSlots(groups[..n], p) {
      j, bp := BotTypeSlotOrigin(groups[..n], p, x);
    } else {
      j := n;
      bp := GroupSlotOrigin(groups[n], p, x);
    }
  }

  /**
   * Every call the pass makes clamps some part of some group of a non-null
   * bot type at the player's maximum for that part.
   */
  lemma {:induction false} PassSlotOrigin(types: seq<Option<BotType>>, p: PlayerMaxima, x: Slot)
    returns (i: nat, j: nat, bp: BodyPart)
    requires x in PassSlots(types, p)
    ensures Visited(types, i, j) && x == Slot(types[i].value.BodyParts[j].Part(bp), p.Maximum(bp))
  {
    var n := |types| - 1;
    if x in PassSlots(types[..n], p) {
      i, j, bp := PassSlotOrigin(types[..n], p, x);
    } else {
      i := n;
      j, bp := BotTypeSlotOrigin(types[n].value.BodyParts, p, x);
    }
  }

  /**
   * The pass writes nothing but the seven part records of the groups of
   * non-null bot types.
   */
  lemma PassWritesOnlyVisitedParts(types: seq<Option<BotType>>, p: PlayerMaxima, m: MinMax)
    requires m in Footprint(PassSlots(types, p))
    ensures exists i, j, bp :: Visited(types, i, j) && m == types[i].value.BodyParts[j].Part(bp)
  {
    FootprintMember(PassSlots(types, p), m);
    var x :| x in PassSlots(types, p) && x.target == m;
    var i, j, bp := PassSlotOrigin(types, p, x);
  }

  /** One more entry adds its own calls at the end. */
  lemma PassSlotsSnoc(types: seq<Option<BotType>>, entry: Option<BotType>, p: PlayerMaxima)
    ensures PassSlots(types + [entry], p) == PassSlots(types, p) + EntrySlots(entry, p)
  {
    assert (types + [entry])[..|types|] == types;
  }

  /** Proof step for `PassSlotsAppend`: regrouping a concatenation of three call lists. */
  lemma SeqAssoc(x: seq<Slot>, y: seq<Slot>, z: seq<Slot>)
    ensures (x + y) + z == x + (y + z)
  {
  }

  /** Proof step for `PassSlotsAppend`: one more entry at the end of the second table. */
  lemma PassSlotsStep(a: seq<Option<BotType>>, front: seq<Option<BotType>>, last: Option<BotType>, p: PlayerMaxima)
    requires PassSlots(a + front, p) == PassSlots(a, p) + PassSlots(front, p)
    ensures PassSlots((a + front) + [last], p) == PassSlots(a, p) + PassSlots(front + [last], p)
  {
    var x, y, z := PassSlots(a, p), PassSlots(front, p), EntrySlots(last, p);
    PassSlotsSnoc(a + front, last, p);
    PassSlotsSnoc(front, last, p);
    SeqAssoc(x, y, z);
  }

  /** The calls for two tables, one after the other, are the calls for their concatenation. */
  lemma {:induction false} PassSlotsAppend(a: seq<Option<BotType>>, b: seq<Option<BotType>>, p: PlayerMaxima)
    ensures PassSlots(a + b, p) == PassSlots(a, p) + PassSlots(b, p)
  {
    if b == [] {
      assert a + b == a;
    } else {
      var n := |b| - 1;
      var front, last := b[..n], b[n];
      assert b == front + [last];
      assert a + b == (a + front) + [last];
      PassSlotsAppend(a, front, p);
      PassSlotsStep(a, front, last, p);
    }
  }

  /** Null entries of the bot-type table contribute no call. */
  lemma PassSkipsNull(types: seq<Option<BotType>>, p: PlayerMaxima, i: nat)
    requires i < |types| && types[i].None?
    ensures PassSlots(types, p) == PassSlots(types[..i] + types[i + 1..], p)
  {
    var before, after := types[..i], types[i + 1..];
    assert types == (before + [None]) + after;
    PassSlotsAppend(before + [None], after, p);
    assert (before + [None])[..|before|] == before;
    assert PassSlots(before + [None], p) == PassSlots(before, p);
    PassSlotsAppend(before, after, p);
  }

  // ---------------------------------------------------------------------------
  // What a sequence of calls does to one record.
  // ---------------------------------------------------------------------------

  /** One more call at the end acts as one more `Step`. */
  lemma ApplySnoc(s: seq<Slot>, x: Slot, m: MinMax, v: MinMaxValue)
    ensures Apply(s + [x], m, v) == Step(x, m, Apply(s, m, v))
  {
    assert (s + [x])[..|s|] == s;
  }

  /** The seven calls of a group, one after the other in source order. */
  lemma ApplyGroup(s: seq<Slot>, g: BodyPartsGroup, p: PlayerMaxima, m: MinMax, v: MinMaxValue)
    ensures Apply(s + GroupSlots(g, p), m, v) ==
      Step(Slot(g.RightArm, p.RightArm), m,
      Step(Slot(g.LeftArm, p.LeftArm), m,
      Step(Slot(g.RightLeg, p.RightLeg), m,
      Step(Slot(g.LeftLeg, p.LeftLeg), m,
      Step(Slot(g.Stomach, p.Stomach), m,
      Step(Slot(g.Head, p.Head), m,
      Step(Slot(g.Chest, p.Chest), m, Apply(s, m, v))))))))
  {
    var r := GroupSlots(g, p);
    assert r == [r[0]] + [r[1]] + [r[2]] + [r[3]] + [r[4]] + [r[5]] + [r[6]];
    ApplySnoc(s, r[0], m, v);
    ApplySnoc(s + [r[0]], r[1], m, v);
    ApplySnoc(s + [r[0]] + [r[1]], r[2], m, v);
    ApplySnoc(s + [r[0]] + [r[1]] + [r[2]], r[3], m, v);
    ApplySnoc(s + [r[0]] + [r[1]] + [r[2]] + [r[3]], r[4], m, v);
    ApplySnoc(s + [r[0]] + [r[1]] + [r[2]] + [r[3]] + [r[4]], r[5], m, v);
    ApplySnoc(s + [r[0]] + [r[1]] + [r[2]] + [r[3]] + [r[4]] + [r[5]], r[6], m, v);
    assert s + r == s + [r[0]] + [r[1]] + [r[2]] + [r[3]] + [r[4]] + [r[5]] + [r[6]];
  }

  /** Running `s` then `t` is running `s + t`. */
  lemma {:induction false} ApplyAppend(s: seq<Slot>, t: seq<Slot>, m: MinMax, v: MinMaxValue)
    ensures Apply(s + t, m, v) == Apply(t, m, Apply(s, m, v))
  {
    if t == [] {
      assert s + t == s;
    } else {
      var n := |t| - 1;
      assert t == t[..n] + [t[n]];
      assert s + t == (s + t[..n]) + [t[n]];
      ApplyAppend(s, t[..n], m, v);
      ApplySnoc(s + t[..n], t[n], m, v);
      ApplySnoc(t[..n], t[n], m, Apply(s, m, v));
    }
  }

  /**
   * Order-free description of the effect of the calls on record `m`: its new
   * minimum is the least of its old minimum and of every clamp applied to it,
   * and its maximum equals that minimum if it was clamped at all, and is
   * untouched otherwise.
   */
  lemma {:induction false} ApplyIsMinOfClamps(s: seq<Slot>, m: MinMax, v: MinMaxValue)
    ensures Apply(s, m, v).Min <= v.Min
    ensures forall x :: x in s && x.target == m ==> Apply(s, m, v).Min <= x.clampAt
    ensures Apply(s, m, v).Min == v.Min ||
            exists x :: x in s && x.target == m && Apply(s, m, v).Min == x.clampAt
    ensures Apply(s, m, v).Max == if m in Footprint(s) then Apply(s, m, v).Min else v.Max
  {
    if s != [] {
      var n := |s| - 1;
      assert s == s[..n] + [s[n]];
      ApplyIsMinOfClamps(s[..n], m, v);
    }
  }

  /** The calls may be made in any order, and any number of times each. */
  lemma ApplyOrderIndependent(s: seq<Slot>, t: seq<Slot>, m: MinMax, v: MinMaxValue)
    requires forall x :: x in s <==> x in t
    ensures Apply(s, m, v) == Apply(t, m, v)
  {
    ApplyIsMinOfClamps(s, m, v);
    ApplyIsMinOfClamps(t, m, v);
    FootprintMember(s, m);
    FootprintMember(t, m);
  }

  /** Running the same calls a second time changes nothing. */
  lemma ApplyIdempotent(s: seq<Slot>, m: MinMax, v: MinMaxValue)
    ensures Apply(s, m, Apply(s, m, v)) == Apply(s, m, v)
  {
    ApplyIsMinOfClamps(s, m, v);
    ApplyIsMinOfClamps(s, m, Apply(s, m, v));
  }

  // ---------------------------------------------------------------------------
  // What the pass does to each part of each visited group.
  // ---------------------------------------------------------------------------

  /**
   * After the pass, every part of every group of a non-null bot type has its
   * spread collapsed, and its minimum is at most the player's maximum for that
   * part and at most its old minimum.
   */
  lemma PassClampsEveryPart(types: seq<Option<BotType>>, p: PlayerMaxima, i: nat, j: nat,
                            bp: BodyPart, v: MinMaxValue)
    requires Visited(types, i, j)
    ensures var r := Apply(PassSlots(types, p), types[i].value.BodyParts[j].Part(bp), v);
            r.Min == r.Max && r.Min <= p.Maximum(bp) && r.Min <= v.Min
  {
    var o := types[i].value.BodyParts[j].Part(bp);
    ApplyIsMinOfClamps(PassSlots(types, p), o, v);
    PassSlotsCover(types, p, i, j, bp);
    FootprintMember(PassSlots(types, p), o);
  }

  /**
   * When every call that reaches a part's record clamps it at that part's
   * maximum (in particular when no record is shared between slots), the record
   * ends up exactly as one `SetAdjustedValue` call leaves it.
   */
  lemma PassExactClamp(types: seq<Option<BotType>>, p: PlayerMaxima, i: nat, j: nat,
                       bp: BodyPart, v: MinMaxValue)
    requires Visited(types, i, j)
    requires forall x :: x in PassSlots(types, p) && x.target == types[i].value.BodyParts[j].Part(bp) ==>
               x.clampAt == p.Maximum(bp)
    ensures Apply(PassSlots(types, p), types[i].value.BodyParts[j].Part(bp), v) == Clamped(v, p.Maximum(bp))
  {
    var o := types[i].value.BodyParts[j].Part(bp);
    ApplyIsMinOfClamps(PassSlots(types, p), o, v);
    PassSlotsCover(types, p, i, j, bp);
    FootprintMember(PassSlots(types, p), o);
  }
}
