/**
 * The layout of the limb-repositioning state vector: 3 * (na + np) numbers,
 * the active joints' positions, velocities and accelerations (na each), then
 * the passive joints' positions, velocities and accelerations (np each).
 */
module LimbState {

  const DEFAULT_ACTIVE_DOFS: nat := 6
  const DEFAULT_PASSIVE_DOFS: nat := 6

  /** Which joints a block of the vector describes. */
  datatype Side = Active | Passive

  /** Which quantity a block of the vector holds. */
  datatype Quantity = Pos | Vel | Acc

  /** One of the six blocks of the vector. */
  datatype Part = Part(side: Side, quantity: Quantity)

  datatype LRState<T> = LRState(data: seq<T>, activeDofs: nat, passiveDofs: nat)
  {
    ghost predicate Valid() {
      |data| == 3 * (activeDofs + passiveDofs)
    }

    /** Where a part starts: the active block comes first, then the passive one. */
    function Lo(p: Part): nat {
      var base := if p.side == Active then 0 else 3 * activeDofs;
      var n := if p.side == Active then activeDofs else passiveDofs;
      base + (match p.quantity case Pos => 0 case Vel => n case Acc => 2 * n)
    }

    /** Where a part ends (exclusive). */
    function Hi(p: Part): nat {
      Lo(p) + (if p.side == Active then activeDofs else passiveDofs)
    }

    function ActiveKinematics(): (r: seq<T>)
      requires Valid()
      ensures |r| == 3 * activeDofs
      ensures forall i :: 0 <= i < |r| ==> r[i] == data[i]
    {
      data[..3 * activeDofs]
    }

    function ActivePos(): (r: seq<T>)
      requires Valid()
      ensures |r| == activeDofs
      ensures forall i :: 0 <= i < |r| ==> r[i] == data[i]
    {
      data[..activeDofs]
    }

    function ActiveVel(): (r: seq<T>)
      requires Valid()
      ensures |r| == activeDofs
      ensures forall i :: 0 <= i < |r| ==> r[i] == data[activeDofs + i]
    {
      data[activeDofs..2 * activeDofs]
    }

    function ActiveAcc(): (r: seq<T>)
      requires Valid()
      ensures |r| == activeDofs
      ensures forall i :: 0 <= i < |r| ==> r[i] == data[2 * activeDofs + i]
    {
      data[2 * activeDofs..3 * activeDofs]
    }

    function PassiveKinematics(): (r: seq<T>)
      requires Valid()
      ensures |r| == 3 * passiveDofs
      ensures forall i :: 0 <= i < |r| ==> r[i] == data[3 * activeDofs + i]
    {
      data[3 * activeDofs..3 * activeDofs + 3 * passiveDofs]
    }

    function PassivePos(): (r: seq<T>)
      requires Valid()
      ensures |r| == passiveDofs
      ensures forall i :: 0 <= i < |r| ==> r[i] == data[3 * activeDofs + i]
    {
      data[3 * activeDofs..3 * activeDofs + passiveDofs]
    }

    function PassiveVel(): (r: seq<T>)
      requires Valid()
      ensures |r| == passiveDofs
      ensures forall i :: 0 <= i < |r| ==> r[i] == data[3 * activeDofs + passiveDofs + i]
    {
      data[3 * activeDofs + passiveDofs..3 * activeDofs + 2 * passiveDofs]
    }

    function PassiveAcc(): (r: seq<T>)
      requires Valid()
      ensures |r| == passiveDofs
      ensures forall i :: 0 <= i < |r| ==> r[i] == data[3 * activeDofs + 2 * passiveDofs + i]
    {
      data[3 * activeDofs + 2 * passiveDofs..3 * activeDofs + 3 * passiveDofs]
    }

    /** The part an index of the vector falls in; every index falls in one. */
    function PartAt(i: nat): (p: Part)
      requires Valid() && i < |data|
      ensures Lo(p) <= i < Hi(p)
    {
      var side := if i < 3 * activeDofs then Active else Passive;
      var n := if side == Active then activeDofs else passiveDofs;
      var offset := if side == Active then i else i - 3 * activeDofs;
      Part(side, if offset < n then Pos else if offset < 2 * n then Vel else Acc)
    }

    /** The slice a part names, by its bounds. */
    function Slice(p: Part): (r: seq<T>)
      requires Valid()
      ensures |r| == Hi(p) - Lo(p)
    {
      data[Lo(p)..Hi(p)]
    }
  }

  /** Wraps a vector; the length must be 3 * (na + np). */
  function NewLRState<T>(input: seq<T>, activeDofs: nat, passiveDofs: nat): (s: LRState<T>)
    requires |input| == 3 * (activeDofs + passiveDofs)
    ensures s.Valid()
    ensures s.data == input && s.activeDofs == activeDofs && s.passiveDofs == passiveDofs
  {
    LRState(input, activeDofs, passiveDofs)
  }

  /** With the default six active and six passive joints the vector holds 36 numbers. */
  lemma DefaultLength<T>(input: seq<T>)
    ensures NewLRState.requires(input, DEFAULT_ACTIVE_DOFS, DEFAULT_PASSIVE_DOFS) <==> |input| == 36
  {
  }

  /** The eight named properties are the slices of their parts. */
  lemma NamedSlices<T>(s: LRState<T>)
    requires s.Valid()
    ensures s.ActivePos() == s.Slice(Part(Active, Pos))
    ensures s.ActiveVel() == s.Slice(Part(Active, Vel))
    ensures s.ActiveAcc() == s.Slice(Part(Active, Acc))
    ensures s.PassivePos() == s.Slice(Part(Passive, Pos))
    ensures s.PassiveVel() == s.Slice(Part(Passive, Vel))
    ensures s.PassiveAcc() == s.Slice(Part(Passive, Acc))
  {
  }

  /** The active kinematics are the active positions, velocities and accelerations in turn. */
  lemma ActiveKinematicsSplit<T>(s: LRState<T>)
    requires s.Valid()
    ensures s.ActiveKinematics() == s.ActivePos() + s.ActiveVel() + s.ActiveAcc()
  {
  }

  /** The passive kinematics are the passive positions, velocities and accelerations in turn. */
  lemma PassiveKinematicsSplit<T>(s: LRState<T>)
    requires s.Valid()
    ensures s.PassiveKinematics() == s.PassivePos() + s.PassiveVel() + s.PassiveAcc()
  {
  }

  /** Active then passive kinematics make up the whole vector. */
  lemma WholeVector<T>(s: LRState<T>)
    requires s.Valid()
    ensures s.ActiveKinematics() + s.PassiveKinematics() == s.data
  {
  }

  /** Different parts cover disjoint index ranges. */
  lemma PartsDisjoint<T>(s: LRState<T>)
    requires s.Valid()
    ensures forall p, q :: p != q ==> s.Hi(p) <= s.Lo(q) || s.Hi(q) <= s.Lo(p)
  {
  }

  /** `arange(36)` with six and six joints: the first 18 numbers are active, the first 6 positions. */
  lemma ArangeExample()
    ensures var s := NewLRState(seq(36, i => i), 6, 6);
      s.ActiveKinematics() == seq(18, i => i) && s.ActivePos() == seq(6, i => i)
  {
  }
}
