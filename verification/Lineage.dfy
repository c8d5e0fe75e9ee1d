/** Ancestry: every bit of every kitty goes back, unchanged, to a kitty made by `create`. */
module Lineage {
  import opened Base
  import opened Genetics
  import opened Bytes
  import opened Kitties
  import opened Ledger
  import opened Runs
  import Nft

  datatype Birth = Founder | BredFrom(id1: TokenId, id2: TokenId, selector: Bytes16)

  /** How each kitty of a run was born, by id: the parents are those the breeding call named. */
  ghost function Births(cfg: Config, g: State, steps: seq<Step>): seq<Birth> {
    if steps == [] then []
    else
      var init, step := steps[..|steps| - 1], steps[|steps| - 1];
      Births(cfg, g, init) + BirthIn(step, Run(cfg, g, init), Run(cfg, g, steps))
  }

  ghost function BirthIn(step: Step, s: State, s': State): seq<Birth> {
    if |s'.log| <= |s.log| then []
    else if s'.log[|s.log|].KittyCreated? then [Founder]
    else if s'.log[|s.log|].KittyBred? && !step.External? && (step.call.Breed? || step.call.AutoBreed?)
    then [BredFrom(step.call.id1, step.call.id2, step.random)]
    else []
  }

  /** What a birth record claims about kitty `k`. */
  ghost predicate BornAs(log: seq<Event>, b: Book, k: nat, birth: Birth)
    requires k < |b.kitties|
  {
    match birth
    case Founder =>
      exists i :: 0 <= i < |log| && log[i].KittyCreated? && log[i].id == k && log[i].dna == b.kitties[k].dna
    case BredFrom(id1, id2, selector) =>
      && id1 < k && id2 < k
      && GenderOf(b.kitties[id1].dna) != GenderOf(b.kitties[id2].dna)
      && b.kitties[k].dna == Combine(b.kitties[id1].dna, b.kitties[id2].dna, selector)
  }

  ghost predicate Recorded(births: seq<Birth>, log: seq<Event>, b: Book) {
    && |births| == |b.kitties|
    && forall k | 0 <= k < |births| :: BornAs(log, b, k, births[k])
  }

  lemma BirthExplained(cfg: Config, s: State, step: Step)
    requires Accounted(cfg, s)
    ensures var s' := Next(cfg, s, step);
            var born := BirthIn(step, s, s');
            && |born| == |BookOf(s').kitties| - |BookOf(s).kitties|
            && (born != [] ==> BornAs(s'.log, BookOf(s'), |BookOf(s).kitties|, born[0]))
  {
    var s', b := Next(cfg, s, step), BookOf(s);
    if !step.External? {
      StepExplained(cfg, s, b, step);
      if s'.log != s.log {
        var e := s'.log[|s.log|];
        assert BookOf(s') == Apply(b, e) by {
          assert s'.log[..|s'.log| - 1] == s.log;
        }
        if e.KittyCreated? {
          NewFounder(s'.log, b, |s.log|);
        } else if e.KittyBred? {
          BredStep(cfg, s, step);
          NewBred(s'.log, b, e, step.call.id1, step.call.id2, step.random);
        }
      }
    }
  }

  lemma NewFounder(log: seq<Event>, b: Book, i: nat)
    requires i < |log| && log[i].KittyCreated? && log[i].id == |b.kitties|
    ensures BornAs(log, Apply(b, log[i]), |b.kitties|, Founder)
  {
  }

  lemma NewBred(log: seq<Event>, b: Book, e: Event, id1: TokenId, id2: TokenId, selector: Bytes16)
    requires e.KittyBred? && Bears(b, e.owner, e.dna, id1, id2, selector)
    ensures BornAs(log, Apply(b, e), |b.kitties|, BredFrom(id1, id2, selector))
  {
  }

  /** A bred kitty's parents are the two kitties of the call. */
  lemma BredStep(cfg: Config, s: State, step: Step)
    requires Accounted(cfg, s) && !step.External?
    requires var s' := Next(cfg, s, step); |s'.log| == |s.log| + 1 && s'.log[|s.log|].KittyBred?
    ensures step.call.Breed? || step.call.AutoBreed?
    ensures var e := Next(cfg, s, step).log[|s.log|];
            Bears(BookOf(s), e.owner, e.dna, step.call.id1, step.call.id2, step.random)
  {
  }

  /** Every kitty has a birth record, and the records tell the truth. */
  lemma {:induction false} EveryBirthRecorded(cfg: Config, g: State, steps: seq<Step>)
    requires IsGenesis(g)
    ensures var s := Run(cfg, g, steps); Recorded(Births(cfg, g, steps), s.log, BookOf(s))
  {
    if steps != [] {
      var init, step := steps[..|steps| - 1], steps[|steps| - 1];
      var s, s' := Run(cfg, g, init), Run(cfg, g, steps);
      EveryBirthRecorded(cfg, g, init);
      LogAccountsForState(cfg, g, init);
      StepAccounted(cfg, s, step);
      BirthExplained(cfg, s, step);
      assert s'.log[..|s.log|] == s.log;
      ReplayKeepsKitties(s'.log, |s.log|);
      RecordedGrows(Births(cfg, g, init), BirthIn(step, s, s'), s.log, BookOf(s), s'.log, BookOf(s'));
    }
  }

  lemma RecordedGrows(births: seq<Birth>, born: seq<Birth>, log: seq<Event>, b: Book, log': seq<Event>, b': Book)
    requires Recorded(births, log, b) && log <= log'
    requires |b'.kitties| == |b.kitties| + |born| && |born| <= 1
    requires born != [] ==> BornAs(log', b', |births|, born[0])
    requires forall k | 0 <= k < |b.kitties| :: b'.kitties[k].dna == b.kitties[k].dna
    ensures Recorded(births + born, log', b')
  {
  }

  /** Every kitty bred in a run has the gender of the parent that bit 0 of its selector names. */
  lemma BredGender(cfg: Config, g: State, steps: seq<Step>, k: nat)
    requires IsGenesis(g) && k < |Births(cfg, g, steps)| && Births(cfg, g, steps)[k].BredFrom?
    ensures var kitties, birth := BookOf(Run(cfg, g, steps)).kitties, Births(cfg, g, steps)[k];
            && birth.id1 < k < |kitties| && birth.id2 < k
            && (GenderOf(kitties[k].dna) == GenderOf(kitties[birth.id1].dna) <==> !Bit(birth.selector[0], 0))
            && (GenderOf(kitties[k].dna) == GenderOf(kitties[birth.id2].dna) <==> Bit(birth.selector[0], 0))
  {
    var s, birth := Run(cfg, g, steps), Births(cfg, g, steps)[k];
    EveryBirthRecorded(cfg, g, steps);
    assert BornAs(s.log, BookOf(s), k, birth);
    GenderFollowsSelector(BookOf(s).kitties[birth.id1].dna, BookOf(s).kitties[birth.id2].dna, birth.selector);
  }

  // ----- Chains of ancestors -----

  /** The ancestors of `k`, youngest first, from whom it has bit `bit` of byte `byte`. */
  ghost function Source(births: seq<Birth>, k: nat, byte: nat, bit: nat): seq<nat>
    requires byte < 16 && bit < 8
    decreases k
  {
    if k < |births| && births[k].BredFrom? then
      var parent := if Bit(births[k].selector[byte], bit) then births[k].id2 else births[k].id1;
      [k] + if parent < k then Source(births, parent, byte, bit) else []
    else [k]
  }

  /** A line of descent: each member is a parent of the one before, and the last one is a founder. */
  ghost predicate Descent(births: seq<Birth>, line: seq<nat>) {
    && line != []
    && (forall i | 0 <= i < |line| :: line[i] < |births|)
    && (forall i | 0 <= i < |line| - 1 ::
          && births[line[i]].BredFrom?
          && (line[i + 1] == births[line[i]].id1 || line[i + 1] == births[line[i]].id2))
    && births[line[|line| - 1]].Founder?
  }

  ghost predicate SameBit(b: Book, line: seq<nat>, byte: nat, bit: nat, value: bool)
    requires byte < 16 && bit < 8
  {
    forall i | 0 <= i < |line| :: line[i] < |b.kitties| && Bit(b.kitties[line[i]].dna[byte], bit) == value
  }

  lemma {:induction false} SourceCarriesBit(births: seq<Birth>, log: seq<Event>, b: Book, k: nat, byte: nat, bit: nat)
    requires Recorded(births, log, b) && k < |births| && byte < 16 && bit < 8
    ensures var line := Source(births, k, byte, bit);
            && Descent(births, line) && line[0] == k
            && SameBit(b, line, byte, bit, Bit(b.kitties[k].dna[byte], bit))
    decreases k
  {
    assert BornAs(log, b, k, births[k]);
    if births[k].BredFrom? {
      var birth := births[k];
      var parent := if Bit(birth.selector[byte], bit) then birth.id2 else birth.id1;
      SourceCarriesBit(births, log, b, parent, byte, bit);
      var rest := Source(births, parent, byte, bit);
      var line := [k] + rest;
      assert Source(births, k, byte, bit) == line;
      CombineDnaBit(b.kitties[birth.id1].dna[byte], b.kitties[birth.id2].dna[byte], birth.selector[byte], bit);
      LongerDescent(births, k, rest);
    }
  }

  lemma LongerDescent(births: seq<Birth>, k: nat, rest: seq<nat>)
    requires Descent(births, rest) && k < |births| && births[k].BredFrom?
    requires rest[0] == births[k].id1 || rest[0] == births[k].id2
    ensures Descent(births, [k] + rest)
  {
  }

  /**
   Every bit is inherited: for each kitty of a run and each bit position there is a line of descent through
   the breedings of the run, to a kitty made by `create`, whose members all carry that bit.
   */
  lemma EveryBitInherited(cfg: Config, g: State, steps: seq<Step>, k: nat, byte: nat, bit: nat)
    returns (line: seq<nat>)
    requires IsGenesis(g) && byte < 16 && bit < 8
    requires k < |BookOf(Run(cfg, g, steps)).kitties|
    ensures var s := Run(cfg, g, steps);
            var b := BookOf(s);
            && Descent(Births(cfg, g, steps), line) && line[0] == k
            && SameBit(b, line, byte, bit, Bit(b.kitties[k].dna[byte], bit))
            && exists i :: 0 <= i < |s.log| && s.log[i].KittyCreated? && s.log[i].id == line[|line| - 1]
                           && Bit(s.log[i].dna[byte], bit) == Bit(b.kitties[k].dna[byte], bit)
  {
    var s, births := Run(cfg, g, steps), Births(cfg, g, steps);
    EveryBirthRecorded(cfg, g, steps);
    SourceCarriesBit(births, s.log, BookOf(s), k, byte, bit);
    line := Source(births, k, byte, bit);
    var founder := line[|line| - 1];
    assert BornAs(s.log, BookOf(s), founder, births[founder]);
  }

  /** A bit that all created kitties share is shared by all kitties. */
  lemma SharedBitSpreads(cfg: Config, g: State, steps: seq<Step>, byte: nat, bit: nat, value: bool)
    requires IsGenesis(g) && byte < 16 && bit < 8
    requires forall e | e in Run(cfg, g, steps).log && e.KittyCreated? :: Bit(e.dna[byte], bit) == value
    ensures forall kitty | kitty in BookOf(Run(cfg, g, steps)).kitties :: Bit(kitty.dna[byte], bit) == value
  {
    var kitties := BookOf(Run(cfg, g, steps)).kitties;
    forall kitty | kitty in kitties
      ensures Bit(kitty.dna[byte], bit) == value
    {
      var k :| 0 <= k < |kitties| && kitties[k] == kitty;
      var line := EveryBitInherited(cfg, g, steps, k, byte, bit);
    }
  }

  /**
   Breeding cannot make up for a missing gender: while all created kitties have one gender,
   no kitty is ever bred.
   */
  lemma OneGenderNeverBreeds(cfg: Config, g: State, steps: seq<Step>, gender: Gender)
    requires IsGenesis(g)
    requires forall e | e in Run(cfg, g, steps).log && e.KittyCreated? :: GenderOf(e.dna) == gender
    ensures forall kitty | kitty in BookOf(Run(cfg, g, steps)).kitties :: GenderOf(kitty.dna) == gender
    ensures forall e | e in Run(cfg, g, steps).log :: !e.KittyBred?
  {
    var s := Run(cfg, g, steps);
    forall e | e in s.log && e.KittyCreated?
      ensures Bit(e.dna[0], 0) == (gender == Female)
    {
      GenderIsLowestBit(e.dna);
    }
    SharedBitSpreads(cfg, g, steps, 0, 0, gender == Female);
    forall kitty | kitty in BookOf(s).kitties
      ensures GenderOf(kitty.dna) == gender
    {
      GenderIsLowestBit(kitty.dna);
    }
    LogAccountsForState(cfg, g, steps);
    forall i | 0 <= i < |s.log|
      ensures !s.log[i].KittyBred?
    {
      if s.log[i].KittyBred? {
        var mate1, mate2 := BredHasMates(cfg, s, i);
        assert false;
      }
    }
  }

  /** Whoever was bred has two parents of different gender. */
  lemma BredHasMates(cfg: Config, s: State, i: nat) returns (mate1: Nft.Token, mate2: Nft.Token)
    requires Accounted(cfg, s) && i < |s.log| && s.log[i].KittyBred?
    ensures mate1 in BookOf(s).kitties && mate2 in BookOf(s).kitties
    ensures GenderOf(mate1.dna) != GenderOf(mate2.dna)
  {
    LegalPrefix(cfg.existentialDeposit, s.log, i);
    var b, e := Replay(s.log[..i]), s.log[i];
    var id1: TokenId, id2: TokenId, selector: Bytes16 :| Bears(b, e.owner, e.dna, id1, id2, selector);
    ReplayKeepsKitties(s.log, i);
    mate1, mate2 := BookOf(s).kitties[id1], BookOf(s).kitties[id2];
  }
}
