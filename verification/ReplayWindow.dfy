/** The 63-bit sliding replay window of the ingest worker (`claim_replay`).

    The table `agent_replay_state` keeps, for one agent and key epoch, the highest accepted
    sequence number and a 63-bit register.  `Claim` is the UPSERT on that row, bit operation by
    bit operation; `Admits` is the plain rule on the set of accepted numbers.  The lemmas show
    that register and set agree in every run. */
module ReplayWindow {
  import opened Options
  import opened SqlBits

  /** One row of `agent_replay_state`. */
  datatype Row = Row(highest: nat, bits: nat)

  /** The row after the statement, and the change count that decides about acceptance. */
  datatype Outcome = Outcome(row: Option<Row>, changes: nat)

  function Claim(row: Option<Row>, sequence: nat): Outcome {
    match row
    case None => Outcome(Some(Row(sequence, 1)), 1)
    case Some(r) =>
      if sequence > r.highest then
        var distance := sequence - r.highest;
        var bits := if distance >= 63 then 1 else And(Or(ShiftLeft(r.bits, distance), 1), MASK_63);
        Outcome(Some(Row(sequence, bits)), 1)
      else if && sequence < r.highest
              && r.highest - sequence <= 62
              && And(r.bits, ShiftLeft(1, r.highest - sequence)) == 0 then
        Outcome(Some(Row(r.highest, Or(r.bits, ShiftLeft(1, r.highest - sequence)))), 1)
      else
        Outcome(row, 0)
  }

  /** The rule the window stands for: a number is admitted when it is above every accepted
      number, or when it is new and at most 62 below each of them. */
  ghost predicate Admits(accepted: set<nat>, sequence: nat) {
    || (forall a | a in accepted :: a < sequence)
    || (sequence !in accepted && forall a | a in accepted :: a - sequence <= 62)
  }

  /** The stored row stands for the set of accepted numbers: bit i says whether the number i
      below the highest was accepted. */
  ghost predicate Represents(row: Option<Row>, accepted: set<nat>) {
    match row
    case None => accepted == {}
    case Some(r) =>
      && r.highest in accepted
      && (forall a | a in accepted :: a <= r.highest)
      && r.bits < WORD
      && (forall i: nat | i < 64 :: Bit(r.bits, i) <==> i < 63 && r.highest - i in accepted)
  }

  lemma ShiftedWindowBit(bits: nat, distance: nat, i: nat)
    requires 0 < distance < 63 && i < 64
    ensures Bit(And(Or(ShiftLeft(bits, distance), 1), MASK_63), i)
       <==> i < 63 && (i == 0 || (i >= distance && Bit(bits, i - distance)))
  {
    WordIsPower();
    BitOfAnd(Or(ShiftLeft(bits, distance), 1), MASK_63, i);
    BitOfOnes(63, i);
    BitOfOr(ShiftLeft(bits, distance), 1, i);
    BitOfShift(bits, distance, i);
    BitOfOne(i);
  }

  lemma MarkedWindowBit(bits: nat, k: nat, i: nat)
    requires k < 63 && i < 64
    ensures Bit(Or(bits, ShiftLeft(1, k)), i) <==> Bit(bits, i) || i == k
  {
    BitOfOr(bits, ShiftLeft(1, k), i);
    BitOfShift(1, k, i);
    if i >= k { BitOfOne(i - k); }
  }

  ghost predicate Refines(o: Outcome, accepted: set<nat>, sequence: nat) {
    && (o.changes == 1 <==> Admits(accepted, sequence))
    && (o.changes == 0 <==> !Admits(accepted, sequence))
    && Represents(o.row, if o.changes == 1 then accepted + {sequence} else accepted)
  }

  lemma FirstClaim(sequence: nat)
    ensures Refines(Claim(None, sequence), {}, sequence)
  {
    hide Bit;
    forall i: nat | i < 64 ensures Bit(1, i) <==> i == 0 { BitOfOne(i); }
    WordIsPower();
  }

  lemma ClaimAbove(r: Row, accepted: set<nat>, sequence: nat)
    requires Represents(Some(r), accepted) && sequence > r.highest
    ensures Refines(Claim(Some(r), sequence), accepted, sequence)
  {
    hide Bit, And, Or, ShiftLeft;
    var o := Claim(Some(r), sequence);
    var distance := sequence - r.highest;
    forall i: nat | i < 64
      ensures Bit(o.row.value.bits, i) <==> i < 63 && sequence - i in accepted + {sequence}
    {
      if distance >= 63 {
        BitOfOne(i);
      } else {
        ShiftedWindowBit(r.bits, distance, i);
        if i >= distance { assert sequence - i == r.highest - (i - distance); }
      }
    }
    AndIsSmall(Or(ShiftLeft(r.bits, distance), 1), MASK_63);
    WordIsPower();
  }

  lemma ClaimWithin(r: Row, accepted: set<nat>, sequence: nat)
    requires Represents(Some(r), accepted) && sequence < r.highest && r.highest - sequence <= 62
    ensures Refines(Claim(Some(r), sequence), accepted, sequence)
  {
    hide Bit, And, Or, ShiftLeft;
    var o := Claim(Some(r), sequence);
    var k := r.highest - sequence;
    AndWithOneBit(r.bits, k);
    assert Bit(r.bits, k) <==> r.highest - k in accepted;
    if o.changes == 1 {
      forall i: nat | i < 64
        ensures Bit(o.row.value.bits, i) <==> i < 63 && r.highest - i in accepted + {sequence}
      {
        MarkedWindowBit(r.bits, k, i);
      }
      ShiftedOneIsSmall(k);
      WordIsPower();
      OrIsSmall(r.bits, ShiftLeft(1, k), 64);
    }
  }

  lemma ClaimRefused(r: Row, accepted: set<nat>, sequence: nat)
    requires Represents(Some(r), accepted) && sequence <= r.highest
    requires sequence == r.highest || r.highest - sequence > 62
    ensures Refines(Claim(Some(r), sequence), accepted, sequence)
  {
    hide Bit, And, Or, ShiftLeft;
  }

  /** One claim: the UPSERT accepts exactly what the rule admits, and the new row stands for the
      enlarged set.  A rejected claim leaves the row alone. */
  lemma ClaimRefinesSet(row: Option<Row>, accepted: set<nat>, sequence: nat)
    requires Represents(row, accepted)
    ensures var o := Claim(row, sequence);
      && (o.changes == 1 <==> Admits(accepted, sequence))
      && (o.changes == 0 <==> !Admits(accepted, sequence))
      && Represents(o.row, if o.changes == 1 then accepted + {sequence} else accepted)
  {
    hide Admits, Claim, Bit;
    if row.None? {
      FirstClaim(sequence);
    } else if sequence > row.value.highest {
      ClaimAbove(row.value, accepted, sequence);
    } else if sequence < row.value.highest && row.value.highest - sequence <= 62 {
      ClaimWithin(row.value, accepted, sequence);
    } else {
      ClaimRefused(row.value, accepted, sequence);
    }
  }

  // ---- whole runs ---------------------------------------------------------------------------

  /** The row after a sequence of claims, oldest first. */
  function RowAfter(claims: seq<nat>): Option<Row> {
    if claims == [] then None
    else Claim(RowAfter(claims[..|claims| - 1]), claims[|claims| - 1]).row
  }

  /** Was the k-th claim of the run accepted? */
  predicate Accepted(claims: seq<nat>, k: nat)
    requires k < |claims|
  {
    Claim(RowAfter(claims[..k]), claims[k]).changes == 1
  }

  /** The numbers accepted in a run. */
  ghost function AcceptedSet(claims: seq<nat>): set<nat> {
    set k | 0 <= k < |claims| && Accepted(claims, k) :: claims[k]
  }

  lemma AcceptedSetGrows(claims: seq<nat>, sequence: nat)
    ensures AcceptedSet(claims + [sequence])
         == AcceptedSet(claims) + (if Accepted(claims + [sequence], |claims|) then {sequence} else {})
  {
    var longer := claims + [sequence];
    forall k | 0 <= k < |claims| ensures longer[k] == claims[k] && (Accepted(longer, k) <==> Accepted(claims, k)) {
      assert longer[..k] == claims[..k];
    }
    assert forall a | a in AcceptedSet(claims) :: a in AcceptedSet(longer) by {
      forall a | a in AcceptedSet(claims) ensures a in AcceptedSet(longer) {
        var k :| 0 <= k < |claims| && Accepted(claims, k) && claims[k] == a;
        assert longer[k] == a && Accepted(longer, k);
      }
    }
    assert longer[|claims|] == sequence;
  }

  /** In every run the stored row stands for exactly the numbers accepted so far. */
  lemma {:induction false} RunRepresents(claims: seq<nat>)
    ensures Represents(RowAfter(claims), AcceptedSet(claims))
  {
    if claims != [] {
      var init, last := claims[..|claims| - 1], claims[|claims| - 1];
      RunRepresents(init);
      ClaimRefinesSet(RowAfter(init), AcceptedSet(init), last);
      assert claims == init + [last];
      AcceptedSetGrows(init, last);
    }
  }

  /** In every run a claim is accepted exactly when the set rule admits it, and no number is
      accepted twice. */
  lemma RunRefinesSet(claims: seq<nat>, k: nat)
    requires k < |claims|
    ensures Accepted(claims, k) <==> Admits(AcceptedSet(claims[..k]), claims[k])
    ensures forall j | 0 <= j < k && Accepted(claims, j) && Accepted(claims, k) :: claims[j] != claims[k]
  {
    RunRepresents(claims[..k]);
    ClaimRefinesSet(RowAfter(claims[..k]), AcceptedSet(claims[..k]), claims[k]);
    forall j | 0 <= j < k && Accepted(claims, j) && Accepted(claims, k)
      ensures claims[j] != claims[k]
    {
      assert claims[..k][..j] == claims[..j];
      assert claims[j] in AcceptedSet(claims[..k]);
    }
  }

  /** A sender whose numbers strictly increase is never turned away, whatever the gaps. */
  lemma IncreasingRunAccepted(claims: seq<nat>, k: nat)
    requires k < |claims|
    requires forall j | 0 <= j < k :: claims[j] < claims[k]
    ensures Accepted(claims, k)
  {
    RunRefinesSet(claims, k);
    assert forall a | a in AcceptedSet(claims[..k]) :: a < claims[k];
  }
}
