/** `Turn`: the three throws of one visit, a bust flag, and the operations that fill
    the throws in order. */
module Turns {
  import opened Wrappers
  import opened Darts

  /** Sum of the values of a list of darts. */
  function SumValues(ds: seq<Dart>): int {
    if ds == [] then 0 else ds[0].Value() + SumValues(ds[1..])
  }

  lemma {:induction false} SumValuesConcat(a: seq<Dart>, b: seq<Dart>)
    ensures SumValues(a + b) == SumValues(a) + SumValues(b)
  {
    if a == [] {
      assert a + b == b;
    } else {
      assert (a + b)[1..] == a[1..] + b;
      SumValuesConcat(a[1..], b);
    }
  }

  /** The dart in a slot, as a list of zero or one darts. */
  function InSlot(s: Option<Dart>): seq<Dart> {
    if s.Some? then [s.value] else []
  }

  /** An empty slot after End: NoScore; a filled slot is kept. */
  function EndedSlot(s: Option<Dart>): Option<Dart> {
    if s.Some? then s else Some(NoScore)
  }

  class Turn {
    /** The C# tuple `(Dart? First, Dart? Second, Dart? Third) Throws`. */
    var first: Option<Dart>
    var second: Option<Dart>
    var third: Option<Dart>
    var bust: bool

    constructor ()
      ensures first == None && second == None && third == None && !bust
    {
      first, second, third := None, None, None;
      bust := false;
    }

    function Slots(): seq<Option<Dart>>
      reads this
    {
      [first, second, third]
    }

    /** The throws made so far, in throwing order. */
    function Filled(): (ds: seq<Dart>)
      reads this
      ensures |ds| <= 3
    {
      InSlot(first) + InSlot(second) + InSlot(third)
    }

    /** No empty slot before a filled one: the shape AddNext keeps. */
    predicate Packed()
      reads this
    {
      (second.Some? ==> first.Some?) && (third.Some? ==> second.Some?)
    }

    function TotalValue(): (v: int)
      reads this
      ensures v == SumValues(Filled())
    {
      SumValuesConcat(InSlot(first) + InSlot(second), InSlot(third));
      SumValuesConcat(InSlot(first), InSlot(second));
      (if first.Some? then first.value.Value() else 0)
      + (if second.Some? then second.value.Value() else 0)
      + (if third.Some? then third.value.Value() else 0)
    }

    predicate Complete()
      reads this
      ensures Complete() <==> |Filled()| == 3
    {
      first.Some? && second.Some? && third.Some?
    }

    function Remaining(): (r: nat)
      reads this
      ensures r == 3 - |Filled()|
      ensures r == 0 <==> Complete()
    {
      (if first.Some? then 0 else 1) + (if second.Some? then 0 else 1) + (if third.Some? then 0 else 1)
    }

    /** Fills the first empty slot; does nothing on a complete turn. */
    method AddNext(dart: Dart)
      modifies this
      ensures bust == old(bust)
      ensures old(first).None? ==> first == Some(dart) && second == old(second) && third == old(third)
      ensures old(first).Some? && old(second).None? ==>
                first == old(first) && second == Some(dart) && third == old(third)
      ensures old(first).Some? && old(second).Some? && old(third).None? ==>
                first == old(first) && second == old(second) && third == Some(dart)
      ensures old(Complete()) ==> Slots() == old(Slots())
      ensures old(Packed()) ==> Packed()
      ensures old(Packed()) && !old(Complete()) ==> Filled() == old(Filled()) + [dart]
      ensures Remaining() == if old(Complete()) then 0 else old(Remaining()) - 1
    {
      if first.None? {
        first := Some(dart);
      } else if second.None? {
        second := Some(dart);
      } else if third.None? {
        third := Some(dart);
      }
    }

    /** Voids the turn: every slot emptied and the bust flag raised. */
    method GoBust()
      modifies this
      ensures bust
      ensures first == None && second == None && third == None
      ensures TotalValue() == 0 && Remaining() == 3 && !Complete()
    {
      first, second, third := None, None, None;
      bust := true;
      ghost var steps := End();
    }

    /** Finishes a turn that is not bust by throwing NoScore into every empty slot;
        `steps` counts the loop iterations, one per slot that was empty. */
    method End() returns (ghost steps: nat)
      modifies this
      ensures old(bust) ==> Slots() == old(Slots()) && bust && steps == 0
      ensures !old(bust) ==> !bust && Complete()
      ensures !old(bust) ==>
                first == EndedSlot(old(first)) && second == EndedSlot(old(second)) && third == EndedSlot(old(third))
      ensures !old(bust) ==> TotalValue() == old(TotalValue())
      ensures steps == (if old(bust) then 0 else old(Remaining())) && steps <= 3
    {
      steps := 0;
      if bust {
        return;
      }
      while !Complete()
        invariant !bust
        invariant first == old(first) || (old(first).None? && first == Some(NoScore))
        invariant second == old(second) || (old(second).None? && second == Some(NoScore))
        invariant third == old(third) || (old(third).None? && third == Some(NoScore))
        invariant TotalValue() == old(TotalValue())
        invariant steps + Remaining() == old(Remaining())
        decreases Remaining()
      {
        AddNext(NoScore);
        steps := steps + 1;
      }
    }
  }
}
