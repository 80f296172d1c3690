/**
 Rendezvous with xEventGroupSync (supports/rtos/event_groups.c): n tasks, each with a bit of its
 own, meet again and again on the mask of all their bits.

 Each task arrives by calling xEventGroupSync with its bit and the mask and no time-out, and
 leaves when that call returns.  Other tasks may use the same event group as they like as long
 as they do not write the bits of the mask.
 */
module Barrier {
  import opened Common
  import opened EventGroups

  datatype Config = Config(bit: seq<Bits>) {
    function N(): nat {
      |bit|
    }
    function Mask(): Bits {
      OrAll(bit, |bit|)
    }
    /** Each task has bits of its own. */
    predicate Valid() {
      && (forall i :: 0 <= i < |bit| ==> bit[i] != 0 && UserOnly(bit[i]))
      && (forall i, j :: 0 <= i < |bit| && 0 <= j < |bit| && i != j ==> !Meets(bit[i], bit[j]))
    }
  }

  function OrAll(bit: seq<Bits>, k: nat): Bits
    requires k <= |bit|
  {
    if k == 0 then 0 else Or(OrAll(bit, k - 1), bit[k - 1])
  }

  /** A participant is between calls, asleep in a call, or woken and about to return; the number
      says how many rounds it has entered. */
  datatype Party = Away(entered: nat) | Asleep(entered: nat) | Woken(entered: nat, value: Bits)

  /** How many rounds a participant has left. */
  function Left(p: Party): int {
    if p.Away? then p.entered else p.entered - 1
  }

  datatype Sys = Sys(g: GroupVal, party: seq<Party>)

  datatype Move =
    | Arrive(i: nat)
    | Leave(i: nat)
    | Other(step: Step)

  function BarrierWord(c: Config): Bits {
    Word(c.Mask(), true, true)
  }

  /** The other users: tasks that are not participants, and no writing of the mask. */
  predicate OtherAllowed(c: Config, step: Step) {
    && Asserted(step)
    && match step
       case DoSet(more) => !Meets(more, c.Mask())
       case DoClear(cleared) => !Meets(cleared, c.Mask())
       case DoWait(t, waitFor, clear, _, _) => t >= c.N() && (clear ==> !Meets(waitFor, c.Mask()))
       case DoSync(t, more, waitFor, _) => t >= c.N() && !Meets(more, c.Mask()) && !Meets(waitFor, c.Mask())
       case DoTimeOut(t) => t >= c.N()
       case DoAfterTimeOut(waitFor, clear, _) => clear ==> !Meets(waitFor, c.Mask())
  }

  predicate Enabled(c: Config, s: Sys, m: Move) {
    && |s.party| == c.N()
    && match m
       case Arrive(i) => i < c.N() && s.party[i].Away?
       case Leave(i) => i < c.N() && s.party[i].Woken?
       case Other(step) => OtherAllowed(c, step)
  }

  predicate Has(ws: seq<Waiter>, t: Task) {
    exists k :: 0 <= k < |ws| && ws[k].task == t
  }

  /** Those of the released tasks that are participants have a value to return with. */
  function Wake(party: seq<Party>, gone: seq<Waiter>, b: Bits): (r: seq<Party>)
    ensures |r| == |party|
  {
    seq(|party|, j requires 0 <= j < |party| =>
      if Has(gone, j) then Woken(party[j].entered, ReleaseWord(b)) else party[j])
  }

  // the waiters a step releases
  function Gone(g: GroupVal, more: Bits): seq<Waiter> {
    Released(g.waiting, Or(g.bits, more))
  }

  function Apply(c: Config, s: Sys, m: Move): Sys
    requires Enabled(c, s, m)
  {
    match m
    case Arrive(i) =>
      var (g, r) := Sync(s.g, i, c.bit[i], c.Mask(), true);
      var woken := Wake(s.party, Gone(s.g, c.bit[i]), Or(s.g.bits, c.bit[i]));
      var entered := s.party[i].entered + 1;
      Sys(g, woken[i := if r.Waits? then Asleep(entered) else Away(entered)])
    case Leave(i) => s.(party := s.party[i := Away(s.party[i].entered)])
    case Other(step) =>
      var party :=
        match step
        case DoSet(more) => Wake(s.party, Gone(s.g, more), Or(s.g.bits, more))
        case DoSync(_, more, _, _) => Wake(s.party, Gone(s.g, more), Or(s.g.bits, more))
        case _ => s.party;
      Sys(EventGroups.Apply(s.g, step), party)
  }

  // ---------------------------------------------------------------- bits

  lemma DisjointOr(x: Bits, b: Bits, y: Bits)
    requires !Meets(x, y)
    ensures Within(x, Or(b, y)) <==> Within(x, b)
    ensures Meets(x, Or(b, y)) <==> Meets(x, b)
  {
    assert x & (b | y) == x & b;
  }

  lemma NonzeroOutside(x: Bits, b: Bits)
    requires x != 0 && !Meets(x, b)
    ensures !Within(x, b)
  {
  }

  lemma MinusDisjoint(x: Bits, b: Bits, z: Bits)
    requires !Meets(x, z)
    ensures Within(x, Minus(b, z)) <==> Within(x, b)
    ensures Meets(x, Minus(b, z)) <==> Meets(x, b)
  {
    assert x & (b & !z) == x & b;
  }

  lemma SubDisjoint(x: Bits, m: Bits, z: Bits)
    requires Within(x, m) && !Meets(z, m)
    ensures !Meets(x, z)
  {
  }

  function Complement(x: Bits): Bits {
    !x
  }

  lemma OutsideIsWithinComplement(x: Bits, m: Bits)
    ensures !Meets(x, m) <==> Within(x, Complement(m))
  {
  }

  /** The mask is there exactly when every participant's bits are. */
  lemma {:induction false} AllWithin(bit: seq<Bits>, k: nat, b: Bits)
    requires k <= |bit|
    ensures Within(OrAll(bit, k), b) <==> forall j :: 0 <= j < k ==> Within(bit[j], b)
  {
    hide Or, Within;
    if k == 0 {
      ZeroWithin(b);
    } else {
      AllWithin(bit, k - 1, b);
      OrWithinParts(OrAll(bit, k - 1), bit[k - 1], b);
    }
  }

  lemma OrWithinParts(x: Bits, y: Bits, z: Bits)
    ensures Within(Or(x, y), z) <==> Within(x, z) && Within(y, z)
  {
    if Within(x, z) && Within(y, z) {
      OrLeast(x, y, z);
    }
    if Within(Or(x, y), z) {
      OrContains(x, y);
      WithinTransitive(x, Or(x, y), z);
      WithinTransitive(y, Or(x, y), z);
    }
    hide Or, Within;
  }

  lemma PartWithinMask(c: Config, i: nat)
    requires i < c.N()
    ensures Within(c.bit[i], c.Mask())
  {
    hide Within, Or, OrAll;
    WithinSelf(c.Mask());
    AllWithin(c.bit, c.N(), c.Mask());
  }

  lemma WithinSelf(x: Bits)
    ensures Within(x, x)
  {
  }

  lemma {:induction false} MaskUserOnly(bit: seq<Bits>, k: nat)
    requires k <= |bit| && forall i :: 0 <= i < |bit| ==> UserOnly(bit[i])
    ensures UserOnly(OrAll(bit, k))
  {
    hide Or, UserOnly;
    if k == 0 {
      ZeroUserOnly();
    } else {
      MaskUserOnly(bit, k - 1);
      UserOnlyOr(OrAll(bit, k - 1), bit[k - 1]);
    }
  }

  lemma ZeroUserOnly()
    ensures UserOnly(0)
  {
  }

  // ---------------------------------------------------------------- the invariant

  /** In round r a participant has not yet arrived, has arrived, or has not yet left the round
      before, in which case it returns with the whole mask. */
  predicate InRound(c: Config, p: Party, r: nat) {
    match p
    case Away(k) => k == r
    case Asleep(k) => k == r + 1
    case Woken(k, v) => k == r && Within(c.Mask(), User(v))
  }

  /** A participant's bits are set while it is asleep and clear otherwise. */
  predicate BitsTell(c: Config, s: Sys) {
    |s.party| == c.N() &&
    forall i :: 0 <= i < c.N() ==>
      if s.party[i].Asleep? then Within(c.bit[i], s.g.bits) else !Meets(c.bit[i], s.g.bits)
  }

  // a waiter that is not a participant clears nothing of the mask
  predicate Harmless(c: Config, w: Waiter) {
    Clears(w.value) ==> !Meets(User(w.value), c.Mask())
  }

  /** The participants on the list are those asleep, and they wait for the mask. */
  predicate ListTells(c: Config, s: Sys) {
    && |s.party| == c.N()
    && (forall w :: w in s.g.waiting ==>
          if w.task < c.N() then s.party[w.task].Asleep? && w.value == BarrierWord(c) else Harmless(c, w))
    && (forall i :: 0 <= i < c.N() && s.party[i].Asleep? ==> Waiter(i, BarrierWord(c)) in s.g.waiting)
  }

  predicate SomeoneMissing(s: Sys) {
    exists i :: 0 <= i < |s.party| && !s.party[i].Asleep?
  }

  predicate Inv(c: Config, s: Sys, r: nat) {
    && c.Valid() && |s.party| == c.N() && NobodySatisfied(s.g)
    && (forall i :: 0 <= i < c.N() ==> InRound(c, s.party[i], r))
    && BitsTell(c, s) && ListTells(c, s) && SomeoneMissing(s)
  }

  lemma ParticipantMatches(c: Config, b: Bits)
    requires c.Valid()
    ensures Matches(BarrierWord(c), b) <==> Within(c.Mask(), b)
    ensures Clears(BarrierWord(c)) && User(BarrierWord(c)) == c.Mask() && UserOnly(c.Mask())
  {
    MaskUserOnly(c.bit, c.N());
    WordRoundTrip(c.Mask(), true, true);
    hide Word, Within, OrAll;
  }

  lemma MaskMissing(c: Config, b: Bits, j: nat)
    requires c.Valid() && j < c.N() && !Meets(c.bit[j], b)
    ensures !Within(c.Mask(), b)
  {
    NonzeroOutside(c.bit[j], b);
    AllWithin(c.bit, c.N(), b);
    hide Within, Meets, OrAll;
  }

  lemma ClearsOffMask(c: Config, s: Sys, b: Bits)
    requires c.Valid() && ListTells(c, s) && !Within(c.Mask(), b)
    ensures !Meets(ToClear(s.g.waiting, b), c.Mask())
  {
    hide Meets, Within, User, Clears, Matches, BarrierWord, ToClear, OrAll, Complement;
    ParticipantMatches(c, b);
    ZeroOffMask(c.Mask());
    forall w | w in s.g.waiting
      ensures Within(ClearOf(w, b), Complement(c.Mask()))
    {
      assert !Meets(ClearOf(w, b), c.Mask());
      OutsideIsWithinComplement(ClearOf(w, b), c.Mask());
    }
    ToClearLeast(s.g.waiting, b, Complement(c.Mask()));
    OutsideIsWithinComplement(ToClear(s.g.waiting, b), c.Mask());
  }

  lemma ZeroOffMask(m: Bits)
    ensures !Meets(0, m)
  {
  }

  /** Setting bits that leave the mask incomplete releases no participant and clears nothing of
      the mask. */
  lemma QuietSet(c: Config, s: Sys, more: Bits)
    requires c.Valid() && ListTells(c, s) && !Within(c.Mask(), Or(s.g.bits, more))
    ensures var b := Or(s.g.bits, more);
            var g := SetBits(s.g, more);
            && Wake(s.party, Gone(s.g, more), b) == s.party
            && (forall i :: 0 <= i < c.N() ==>
                  && (Within(c.bit[i], g.bits) <==> Within(c.bit[i], b))
                  && (Meets(c.bit[i], g.bits) <==> Meets(c.bit[i], b)))
            && ListTells(c, s.(g := g))
  {
    hide Or, Minus, Meets, Within, User, Clears, Matches, BarrierWord, Harmless, ToClear, ReleaseWord, OrAll, Released, Kept;
    var b := Or(s.g.bits, more);
    ParticipantMatches(c, b);
    KeptUnmatched(s.g.waiting, b);
    ClearsOffMask(c, s, b);
    forall i | 0 <= i < c.N()
      ensures Within(c.bit[i], SetBits(s.g, more).bits) <==> Within(c.bit[i], b)
      ensures Meets(c.bit[i], SetBits(s.g, more).bits) <==> Meets(c.bit[i], b)
      ensures !Has(Gone(s.g, more), i)
    {
      PartWithinMask(c, i);
      SubDisjoint(c.bit[i], c.Mask(), ToClear(s.g.waiting, b));
      MinusDisjoint(c.bit[i], b, ToClear(s.g.waiting, b));
    }
  }

  // ---------------------------------------------------------------- arriving

  /** A participant that is not the last to arrive goes to sleep, and nobody is released. */
  lemma ArriveEarly(c: Config, s: Sys, r: nat, i: nat, j: nat)
    requires Inv(c, s, r) && Enabled(c, s, Arrive(i)) && j < c.N() && j != i && !s.party[j].Asleep?
    ensures var s' := Apply(c, s, Arrive(i));
            Inv(c, s', r) && s'.party == s.party[i := Asleep(r + 1)]
  {
    hide Or, Minus, Meets, Within, User, Clears, Matches, Word, Harmless, ToClear, ReleaseWord, OrAll, Released, Kept, NobodySatisfied, SetBits;
    var b := Or(s.g.bits, c.bit[i]);
    DisjointOr(c.bit[j], s.g.bits, c.bit[i]);
    MaskMissing(c, b, j);
    QuietSet(c, s, c.bit[i]);
    SyncKeepsBarrier(c, s.g, i);
    var s' := Apply(c, s, Arrive(i));
    forall k | 0 <= k < c.N()
      ensures if s'.party[k].Asleep? then Within(c.bit[k], s'.g.bits) else !Meets(c.bit[k], s'.g.bits)
    {
      if k == i {
        OrContains(s.g.bits, c.bit[i]);
      } else {
        DisjointOr(c.bit[k], s.g.bits, c.bit[i]);
      }
    }
    assert !s'.party[j].Asleep?;
  }

  lemma SyncKeepsBarrier(c: Config, g: GroupVal, i: nat)
    requires c.Valid() && i < c.N() && NobodySatisfied(g)
    ensures NobodySatisfied(Sync(g, i, c.bit[i], c.Mask(), true).0)
  {
    hide NobodySatisfied, Sync, Within, OrAll;
    ParticipantMatches(c, 0);
    PartWithinMask(c, i);
    ZeroNotNonzero(c.bit[i], c.Mask());
    SyncKeeps(g, i, c.bit[i], c.Mask(), true);
  }

  lemma ZeroNotNonzero(x: Bits, y: Bits)
    requires x != 0 && Within(x, y)
    ensures y != 0
  {
  }

  /** The last to arrive does not sleep: it returns with the whole mask, every other participant
      is released with the whole mask, the mask is left clear, and the next round begins. */
  lemma ArriveLast(c: Config, s: Sys, r: nat, i: nat)
    requires Inv(c, s, r) && Enabled(c, s, Arrive(i))
    requires forall j :: 0 <= j < c.N() && j != i ==> s.party[j].Asleep?
    ensures var s' := Apply(c, s, Arrive(i));
            && Inv(c, s', r + 1) && s'.party[i] == Away(r + 1)
            && (forall j :: 0 <= j < c.N() && j != i ==> s'.party[j] == Woken(r + 1, ReleaseWord(Or(s.g.bits, c.bit[i]))))
            && (forall j :: 0 <= j < c.N() ==> !Meets(c.bit[j], s'.g.bits))
    ensures Sync(s.g, i, c.bit[i], c.Mask(), true).1 == Returned(Or(s.g.bits, c.bit[i]))
    ensures Within(c.Mask(), Or(s.g.bits, c.bit[i]))
  {
    hide Or, Minus, Meets, Within, User, Clears, Matches, BarrierWord, Harmless, ToClear, ReleaseWord, OrAll, Released, Kept, NobodySatisfied;
    var b := Or(s.g.bits, c.bit[i]);
    MaskComplete(c, s, r, i);
    SyncKeepsBarrier(c, s.g, i);
    LastReleases(c, s, i, b);
    LastArrives(c, s, r, i);
    var s' := Apply(c, s, Arrive(i));
    MaskLeftClear(c, SetBits(s.g, c.bit[i]).bits);
    NobodyUserOnly(s.g, c.bit[i]);
    ReleaseWordRoundTrip(b);
    hide Apply, Sync, SetBits, Wake;
    NextRound(c, s', r + 1, i, ReleaseWord(b));
  }

  // everybody else's bits are there, and now the last one's
  lemma MaskComplete(c: Config, s: Sys, r: nat, i: nat)
    requires Inv(c, s, r) && i < c.N() && forall j :: 0 <= j < c.N() && j != i ==> s.party[j].Asleep?
    ensures Within(c.Mask(), Or(s.g.bits, c.bit[i]))
  {
    hide Or, Meets, Within, BarrierWord, Harmless, OrAll, NobodySatisfied;
    var b := Or(s.g.bits, c.bit[i]);
    OrContains(s.g.bits, c.bit[i]);
    forall j | 0 <= j < c.N()
      ensures Within(c.bit[j], b)
    {
      if j != i {
        WithinTransitive(c.bit[j], s.g.bits, b);
      }
    }
    AllWithin(c.bit, c.N(), b);
  }

  // what the last arrival does to bits, list and participants
  lemma LastArrives(c: Config, s: Sys, r: nat, i: nat)
    requires Inv(c, s, r) && Enabled(c, s, Arrive(i)) && Within(c.Mask(), Or(s.g.bits, c.bit[i]))
    requires forall j :: 0 <= j < c.N() && j != i ==> s.party[j].Asleep? && Has(Gone(s.g, c.bit[i]), j)
    ensures var s' := Apply(c, s, Arrive(i));
            && s'.g == GroupVal(Minus(SetBits(s.g, c.bit[i]).bits, c.Mask()), Kept(s.g.waiting, Or(s.g.bits, c.bit[i])))
            && s'.g == Sync(s.g, i, c.bit[i], c.Mask(), true).0
            && |s'.party| == c.N() && s'.party[i] == Away(r + 1)
            && forall j :: 0 <= j < c.N() && j != i ==> s'.party[j] == Woken(r + 1, ReleaseWord(Or(s.g.bits, c.bit[i])))
    ensures Sync(s.g, i, c.bit[i], c.Mask(), true).1 == Returned(Or(s.g.bits, c.bit[i]))
  {
    hide Or, Minus, Meets, Within, User, Matches, BarrierWord, Harmless, ToClear, ReleaseWord, OrAll, Released, Kept, NobodySatisfied, ListTells, BitsTell;
  }

  // with the mask clear and everybody awake the next round begins
  lemma NextRound(c: Config, s: Sys, r: nat, i: nat, v: Bits)
    requires c.Valid() && |s.party| == c.N() && i < c.N() && NobodySatisfied(s.g) && Within(c.Mask(), User(v))
    requires s.party[i] == Away(r) && forall j :: 0 <= j < c.N() && j != i ==> s.party[j] == Woken(r, v)
    requires forall j :: 0 <= j < c.N() ==> !Meets(c.bit[j], s.g.bits)
    requires forall w :: w in s.g.waiting ==> w.task >= c.N() && Harmless(c, w)
    ensures Inv(c, s, r)
  {
    hide Meets, Within, User, BarrierWord, Harmless, OrAll, NobodySatisfied;
    assert !s.party[i].Asleep?;
  }

  lemma MaskLeftClear(c: Config, bits: Bits)
    requires c.Valid()
    ensures forall j :: 0 <= j < c.N() ==> !Meets(c.bit[j], Minus(bits, c.Mask()))
  {
    hide Minus, Meets, Within, OrAll;
    forall j | 0 <= j < c.N()
      ensures !Meets(c.bit[j], Minus(bits, c.Mask()))
    {
      PartWithinMask(c, j);
      MinusOut(c.bit[j], bits, c.Mask());
    }
  }

  lemma NobodyUserOnly(g: GroupVal, x: Bits)
    requires NobodySatisfied(g) && UserOnly(x)
    ensures UserOnly(Or(g.bits, x))
  {
    UserOnlyOr(g.bits, x);
  }

  lemma LastReleases(c: Config, s: Sys, i: nat, b: Bits)
    requires c.Valid() && ListTells(c, s) && i < c.N() && b == Or(s.g.bits, c.bit[i]) && Within(c.Mask(), b)
    requires s.party[i].Away? && forall j :: 0 <= j < c.N() && j != i ==> s.party[j].Asleep?
    ensures forall j :: 0 <= j < c.N() && j != i ==> Has(Gone(s.g, c.bit[i]), j)
    ensures forall w :: w in Kept(s.g.waiting, b) ==> w.task >= c.N() && Harmless(c, w)
  {
    hide Or, Within, Matches, BarrierWord, Harmless, OrAll, Released, Kept;
    ParticipantMatches(c, b);
    KeptUnmatched(s.g.waiting, b);
    forall j | 0 <= j < c.N() && j != i
      ensures Has(Gone(s.g, c.bit[i]), j)
    {
      assert Waiter(j, BarrierWord(c)) in Gone(s.g, c.bit[i]);
    }
  }

  // ---------------------------------------------------------------- leaving, and the other users

  lemma LeaveKeeps(c: Config, s: Sys, r: nat, i: nat)
    requires Inv(c, s, r) && Enabled(c, s, Leave(i))
    ensures Inv(c, Apply(c, s, Leave(i)), r)
  {
    hide Meets, Within, BarrierWord, Harmless, NobodySatisfied, OrAll;
    var s' := Apply(c, s, Leave(i));
    assert !s'.party[i].Asleep?;
  }

  // a change of the group that the participants do not notice
  lemma Unnoticed(c: Config, s: Sys, r: nat, g: GroupVal)
    requires Inv(c, s, r) && NobodySatisfied(g) && ListTells(c, s.(g := g))
    requires forall i :: 0 <= i < c.N() ==>
               && (Within(c.bit[i], g.bits) <==> Within(c.bit[i], s.g.bits))
               && (Meets(c.bit[i], g.bits) <==> Meets(c.bit[i], s.g.bits))
    ensures Inv(c, s.(g := g), r)
  {
    hide Meets, Within, BarrierWord, Harmless, NobodySatisfied, OrAll;
  }

  lemma OffMask(c: Config, x: Bits)
    requires c.Valid() && !Meets(x, c.Mask())
    ensures forall i :: 0 <= i < c.N() ==> !Meets(c.bit[i], x)
  {
    hide Meets, Within, OrAll;
    forall i | 0 <= i < c.N()
      ensures !Meets(c.bit[i], x)
    {
      PartWithinMask(c, i);
      SubDisjoint(c.bit[i], c.Mask(), x);
    }
  }

  lemma OtherClearKeeps(c: Config, s: Sys, r: nat, x: Bits)
    requires Inv(c, s, r) && !Meets(x, c.Mask())
    ensures Inv(c, s.(g := ClearBits(s.g, x)), r)
  {
    hide Meets, Within, Minus, BarrierWord, Harmless, NobodySatisfied, OrAll;
    OffMask(c, x);
    ClearingKeeps(s.g, x);
    forall i | 0 <= i < c.N()
      ensures Within(c.bit[i], Minus(s.g.bits, x)) <==> Within(c.bit[i], s.g.bits)
      ensures Meets(c.bit[i], Minus(s.g.bits, x)) <==> Meets(c.bit[i], s.g.bits)
    {
      MinusDisjoint(c.bit[i], s.g.bits, x);
    }
    Unnoticed(c, s, r, ClearBits(s.g, x));
  }

  lemma OtherSetKeeps(c: Config, s: Sys, r: nat, more: Bits)
    requires Inv(c, s, r) && UserOnly(more) && !Meets(more, c.Mask())
    ensures Inv(c, s.(g := SetBits(s.g, more)), r)
    ensures Wake(s.party, Gone(s.g, more), Or(s.g.bits, more)) == s.party
    ensures NobodySatisfied(SetBits(s.g, more))
  {
    hide Meets, Within, Or, Minus, BarrierWord, Harmless, NobodySatisfied, OrAll, SetBits, UserOnly, Wake, Gone;
    OffMask(c, more);
    SettingKeeps(s.g, more);
    var b := Or(s.g.bits, more);
    forall i | 0 <= i < c.N()
      ensures Within(c.bit[i], b) <==> Within(c.bit[i], s.g.bits)
      ensures Meets(c.bit[i], b) <==> Meets(c.bit[i], s.g.bits)
    {
      DisjointOr(c.bit[i], s.g.bits, more);
    }
    var j :| 0 <= j < |s.party| && !s.party[j].Asleep?;
    MaskMissing(c, b, j);
    QuietSet(c, s, more);
    Unnoticed(c, s, r, SetBits(s.g, more));
  }

  lemma OtherSleepKeeps(c: Config, s: Sys, r: nat, t: Task, waitFor: Bits, clear: bool, all: bool)
    requires Inv(c, s, r) && t >= c.N() && UserOnly(waitFor) && waitFor != 0 && (clear ==> !Meets(waitFor, c.Mask()))
    requires !TestWaitCondition(s.g.bits, waitFor, all)
    ensures Inv(c, s.(g := s.g.(waiting := s.g.waiting + [Waiter(t, Word(waitFor, clear, all))])), r)
  {
    hide Meets, Within, Or, Minus, BarrierWord, Word, User, Clears, NobodySatisfied, OrAll, UserOnly, TestWaitCondition;
    SleepingKeeps(s.g, t, waitFor, clear, all);
    WordRoundTrip(waitFor, clear, all);
    Unnoticed(c, s, r, s.g.(waiting := s.g.waiting + [Waiter(t, Word(waitFor, clear, all))]));
  }

  lemma OtherSyncKeeps(c: Config, s: Sys, r: nat, t: Task, more: Bits, waitFor: Bits, mayBlock: bool)
    requires Inv(c, s, r) && Enabled(c, s, Other(DoSync(t, more, waitFor, mayBlock)))
    ensures Inv(c, Apply(c, s, Other(DoSync(t, more, waitFor, mayBlock))), r)
  {
    hide Meets, Within, Or, Minus, Word, User, Inv, OrAll, UserOnly, SetBits, ClearBits, Wake, Gone;
    OtherSetKeeps(c, s, r, more);
    var s1 := s.(g := SetBits(s.g, more));
    if Within(waitFor, Or(s.g.bits, more)) {
      OtherClearKeeps(c, s1, r, waitFor);
    } else if mayBlock {
      StillUnfinished(s.g, more, waitFor);
      OtherSleepKeeps(c, s1, r, t, waitFor, true, true);
    }
  }

  lemma StillUnfinished(g: GroupVal, more: Bits, waitFor: Bits)
    requires !Within(waitFor, Or(g.bits, more))
    ensures !TestWaitCondition(SetBits(g, more).bits, waitFor, true)
  {
    hide Within, Or, Minus, ToClear;
    var b := Or(g.bits, more);
    MinusWithin(b, ToClear(g.waiting, b));
    FewerBits(b, SetBits(g, more).bits, waitFor);
  }

  lemma OtherKeeps(c: Config, s: Sys, r: nat, step: Step)
    requires Inv(c, s, r) && Enabled(c, s, Other(step))
    ensures Inv(c, Apply(c, s, Other(step)), r)
  {
    hide Meets, Within, Or, Minus, Word, User, Inv, OrAll, UserOnly, SetBits, ClearBits, Wake, Gone, TestWaitCondition, Sync;
    match step
    case DoSet(more) => OtherSetKeeps(c, s, r, more);
    case DoClear(cleared) => OtherClearKeeps(c, s, r, cleared);
    case DoWait(t, waitFor, clear, all, mayBlock) =>
      if TestWaitCondition(s.g.bits, waitFor, all) {
        if clear {
          OtherClearKeeps(c, s, r, waitFor);
        }
      } else if mayBlock {
        OtherSleepKeeps(c, s, r, t, waitFor, clear, all);
      }
    case DoSync(t, more, waitFor, mayBlock) => OtherSyncKeeps(c, s, r, t, more, waitFor, mayBlock);
    case DoTimeOut(t) => OtherTimeOutKeeps(c, s, r, t);
    case DoAfterTimeOut(waitFor, clear, all) =>
      if clear {
        OtherClearKeeps(c, s, r, waitFor);
      }
  }

  lemma OtherTimeOutKeeps(c: Config, s: Sys, r: nat, t: Task)
    requires Inv(c, s, r) && t >= c.N()
    ensures Inv(c, s.(g := TimeOut(s.g, t)), r)
  {
    hide Meets, Within, BarrierWord, Harmless, OrAll, Matches, User;
    Unnoticed(c, s, r, TimeOut(s.g, t));
  }

  // ---------------------------------------------------------------- every run

  predicate Initial(c: Config, s: Sys) {
    && c.Valid() && c.N() > 0 && s.g == GroupVal(0, [])
    && |s.party| == c.N() && forall i :: 0 <= i < c.N() ==> s.party[i] == Away(0)
  }

  predicate Run(c: Config, s: Sys, moves: seq<Move>, s': Sys)
    decreases |moves|
  {
    if moves == [] then s' == s
    else Enabled(c, s, moves[0]) && Run(c, Apply(c, s, moves[0]), moves[1..], s')
  }

  lemma MoveKeeps(c: Config, s: Sys, r: nat, m: Move) returns (r': nat)
    requires Inv(c, s, r) && Enabled(c, s, m)
    ensures Inv(c, Apply(c, s, m), r')
  {
    r' := r;
    match m
    case Arrive(i) =>
      if j :| 0 <= j < c.N() && j != i && !s.party[j].Asleep? {
        ArriveEarly(c, s, r, i, j);
      } else {
        ArriveLast(c, s, r, i);
        r' := r + 1;
      }
      hide Inv, Apply;
    case Leave(i) => LeaveKeeps(c, s, r, i);
      hide Inv, Apply;
    case Other(step) => OtherKeeps(c, s, r, step);
      hide Inv, Apply;
  }

  lemma {:induction false} RunKeeps(c: Config, s: Sys, r: nat, moves: seq<Move>, s': Sys) returns (r': nat)
    requires Inv(c, s, r) && Run(c, s, moves, s')
    ensures Inv(c, s', r')
    decreases |moves|
  {
    hide Inv, Enabled, Apply;
    r' := r;
    if moves != [] {
      r' := MoveKeeps(c, s, r, moves[0]);
      r' := RunKeeps(c, Apply(c, s, moves[0]), r', moves[1..], s');
    }
  }

  lemma InitialInv(c: Config, s: Sys)
    requires Initial(c, s)
    ensures Inv(c, s, 0)
  {
    forall i | 0 <= i < c.N()
      ensures !Meets(c.bit[i], 0)
    {
      MeetsZero(c.bit[i]);
    }
    ZeroUserOnly();
    hide Meets, Within, UserOnly, OrAll;
    assert !s.party[0].Asleep?;
  }

  lemma MeetsZero(x: Bits)
    ensures !Meets(x, 0)
  {
  }

  /** In every run nobody leaves a round before everybody has entered it, nobody is more than
      one round ahead, and whoever has been released returns with the whole mask. */
  lemma BarrierSafety(c: Config, s: Sys, moves: seq<Move>, s': Sys)
    requires Initial(c, s) && Run(c, s, moves, s')
    ensures |s'.party| == c.N()
    ensures forall i, j :: 0 <= i < c.N() && 0 <= j < c.N() ==> Left(s'.party[i]) <= s'.party[j].entered
    ensures forall i, j :: 0 <= i < c.N() && 0 <= j < c.N() ==> s'.party[i].entered <= s'.party[j].entered + 1
    ensures forall i :: 0 <= i < c.N() && s'.party[i].Woken? ==> Within(c.Mask(), User(s'.party[i].value))
  {
    hide Meets, Within, User, OrAll, BarrierWord, NobodySatisfied, Run, Inv, Initial;
    InitialInv(c, s);
    var r := RunKeeps(c, s, 0, moves, s');
    RoundsOf(c, s', r);
  }

  lemma RoundsOf(c: Config, s: Sys, r: nat)
    requires Inv(c, s, r)
    ensures |s.party| == c.N() && forall i :: 0 <= i < c.N() ==> InRound(c, s.party[i], r)
  {
  }

  /** In every run, who arrives while somebody else is missing goes to sleep, and nobody else is
      affected ... */
  lemma EarlyArrivalSleeps(c: Config, s: Sys, moves: seq<Move>, s': Sys, i: nat, j: nat)
    requires Initial(c, s) && Run(c, s, moves, s') && Enabled(c, s', Arrive(i))
    requires j < c.N() && j != i && !s'.party[j].Asleep?
    ensures Apply(c, s', Arrive(i)).party == s'.party[i := Asleep(s'.party[i].entered + 1)]
  {
    InitialInv(c, s);
    var r := RunKeeps(c, s, 0, moves, s');
    ArriveEarly(c, s', r, i, j);
    hide Meets, Within, User, OrAll, BarrierWord, NobodySatisfied, Apply, BitsTell, ListTells, SomeoneMissing, Run;
    assert InRound(c, s'.party[i], r);
  }

  /** ... and who arrives when nobody else is missing does not sleep: all the others are released
      with the whole mask, and the mask is left clear. */
  lemma LastArrivalReleases(c: Config, s: Sys, moves: seq<Move>, s': Sys, i: nat)
    requires Initial(c, s) && Run(c, s, moves, s') && Enabled(c, s', Arrive(i))
    requires forall j :: 0 <= j < c.N() && j != i ==> s'.party[j].Asleep?
    ensures var t := Apply(c, s', Arrive(i));
            && |t.party| == c.N() && t.party[i].Away?
            && (forall j :: 0 <= j < c.N() && j != i ==> t.party[j].Woken? && Within(c.Mask(), User(t.party[j].value)))
            && (forall j :: 0 <= j < c.N() ==> !Meets(c.bit[j], t.g.bits))
  {
    InitialInv(c, s);
    var r := RunKeeps(c, s, 0, moves, s');
    ArriveLast(c, s', r, i);
    hide Meets, Within, User, OrAll, BarrierWord, NobodySatisfied, Apply, ReleaseWord, Or, BitsTell, ListTells, SomeoneMissing, Run;
    var t := Apply(c, s', Arrive(i));
    assert forall j :: 0 <= j < c.N() ==> InRound(c, t.party[j], r + 1);
  }
}
