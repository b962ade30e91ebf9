/**
 Static state owned by a full-speed USB driver: for each of the two controller
 instances, one list of queue heads and one list of transfer descriptors, how a
 controller handle selects its state, how the queue-head list is published to
 the controller, and how the slots are handed to the driver.
 */
module FullSpeedState {
  import opened Wrappers
  import opened Handoff

  /** Number of queue heads (and of transfer descriptors) per instance: one per endpoint and direction. */
  const QhCount: nat := 16

  /** Alignment of a queue-head list: the controller's list-address register holds a page address. */
  const QhListAlign: nat := 4096

  /** Alignment of a transfer-descriptor list. */
  const TdListAlign: nat := 32

  /** A 32-bit address or register value of the target. */
  newtype Address = x: int | 0 <= x < 0x1_0000_0000

  /** A queue head. Its layout belongs to the controller and is opaque here: only its identity matters. */
  class Qh {
    constructor New() {}
  }

  /** A transfer descriptor, opaque like `Qh`. */
  class Td {
    constructor New() {}
  }

  /**
   The register block of one controller instance, as far as this layer touches it.
   Handles are compared by identity, as the driver compares register-block pointers.
   */
  class Instance {
    /** The ASYNCLISTADDR register: the address of the controller's endpoint list. */
    var asyncListAddr: Address
  }

  /** A list of `QhCount` default queue heads, each a new record of its own. */
  method NewQhList() returns (list: array<Qh>)
    ensures fresh(list) && list.Length == QhCount
    ensures forall k :: 0 <= k < QhCount ==> fresh(list[k])
    ensures Distinct(list[..])
  {
    var first := new Qh.New();
    list := new Qh[QhCount](_ => first);
    for i := 1 to QhCount
      invariant forall k :: 0 <= k < QhCount ==> fresh(list[k])
      invariant forall k, l :: 0 <= k < l < i ==> list[k] != list[l]
    {
      list[i] := new Qh.New();
    }
  }

  /** A list of `QhCount` default transfer descriptors, each a new record of its own. */
  method NewTdList() returns (list: array<Td>)
    ensures fresh(list) && list.Length == QhCount
    ensures forall k :: 0 <= k < QhCount ==> fresh(list[k])
    ensures Distinct(list[..])
  {
    var first := new Td.New();
    list := new Td[QhCount](_ => first);
    for i := 1 to QhCount
      invariant forall k :: 0 <= k < QhCount ==> fresh(list[k])
      invariant forall k, l :: 0 <= k < l < i ==> list[k] != list[l]
    {
      list[i] := new Td.New();
    }
  }

  /** The state of one controller instance: its two descriptor lists and who owns their slots. */
  class State {
    const qhs: array<Qh>
    const tds: array<Td>
    /** Where the queue-head list lies in memory (the address of slot 0). */
    const qhBase: Address
    /** Where the transfer-descriptor list lies in memory. */
    const tdBase: Address
    /** The queue heads have been handed to the driver. */
    ghost var qhsStolen: bool
    /** The transfer descriptors have been handed to the driver. */
    ghost var tdsStolen: bool

    ghost predicate Valid()
      reads qhs, tds
    {
      qhs.Length == QhCount && tds.Length == QhCount &&
      Distinct(qhs[..]) && Distinct(tds[..]) &&
      qhBase as int % QhListAlign == 0 && tdBase as int % TdListAlign == 0 &&
      qhBase != tdBase
    }

    /** The initial state: default lists placed at the given aligned addresses, nothing handed out. */
    constructor (qhBase: Address, tdBase: Address)
      requires qhBase as int % QhListAlign == 0 && tdBase as int % TdListAlign == 0
      requires qhBase != tdBase
      ensures Valid()
      ensures this.qhBase == qhBase && this.tdBase == tdBase
      ensures fresh(qhs) && fresh(tds)
      ensures forall k :: 0 <= k < QhCount ==> fresh(qhs[k]) && fresh(tds[k])
      ensures !qhsStolen && !tdsStolen
    {
      var q := NewQhList();
      var t := NewTdList();
      qhs, tds := q, t;
      this.qhBase, this.tdBase := qhBase, tdBase;
      qhsStolen, tdsStolen := false, false;
    }
  }

  /** The two statically allocated instance states, with the register blocks they belong to. */
  class Statics {
    const usb1: Instance
    const usb2: Instance
    const usb1State: State
    const usb2State: State

    ghost predicate Valid()
      reads usb1State.qhs, usb1State.tds, usb2State.qhs, usb2State.tds
    {
      usb1 != usb2 && usb1State != usb2State &&
      usb1State.Valid() && usb2State.Valid() &&
      Disjoint(usb1State.qhs[..], usb2State.qhs[..]) &&
      Disjoint(usb1State.tds[..], usb2State.tds[..]) &&
      usb1State.qhBase != usb2State.qhBase && usb1State.tdBase != usb2State.tdBase &&
      usb1State.qhBase != usb2State.tdBase && usb1State.tdBase != usb2State.qhBase
    }

    /** One of the two register blocks this layer knows. */
    predicate IsKnown(usb: Instance) {
      usb == usb1 || usb == usb2
    }

    /** Both states start from the same initial value, each with records of its own at addresses of its own. */
    constructor (usb1: Instance, usb2: Instance, qhBase1: Address, tdBase1: Address, qhBase2: Address, tdBase2: Address)
      requires usb1 != usb2
      requires qhBase1 as int % QhListAlign == 0 && tdBase1 as int % TdListAlign == 0
      requires qhBase2 as int % QhListAlign == 0 && tdBase2 as int % TdListAlign == 0
      requires qhBase1 != tdBase1 && qhBase2 != tdBase2
      requires qhBase1 != qhBase2 && tdBase1 != tdBase2 && qhBase1 != tdBase2 && tdBase1 != qhBase2
      ensures Valid()
      ensures this.usb1 == usb1 && this.usb2 == usb2
      ensures usb1State.qhBase == qhBase1 && usb1State.tdBase == tdBase1
      ensures usb2State.qhBase == qhBase2 && usb2State.tdBase == tdBase2
      ensures fresh(usb1State) && fresh(usb2State)
      ensures fresh(usb1State.qhs) && fresh(usb1State.tds) && fresh(usb2State.qhs) && fresh(usb2State.tds)
      ensures forall k :: 0 <= k < QhCount ==> fresh(usb1State.qhs[k]) && fresh(usb1State.tds[k])
      ensures forall k :: 0 <= k < QhCount ==> fresh(usb2State.qhs[k]) && fresh(usb2State.tds[k])
      ensures !usb1State.qhsStolen && !usb1State.tdsStolen
      ensures !usb2State.qhsStolen && !usb2State.tdsStolen
    {
      this.usb1, this.usb2 := usb1, usb2;
      var s1 := new State(qhBase1, tdBase1);
      var s2 := new State(qhBase2, tdBase2);
      usb1State, usb2State := s1, s2;
    }

    /** The state of the controller `usb`: each known register block has its own state and none other. */
    function StateOf(usb: Instance): (s: State)
      requires Valid() && IsKnown(usb)
      reads usb1State.qhs, usb1State.tds, usb2State.qhs, usb2State.tds
      ensures s == usb1State <==> usb == usb1
      ensures s == usb2State <==> usb == usb2
    {
      if usb == usb1 then usb1State else usb2State
    }

    /** The address of queue-head slot 0 of `usb`'s own list, page aligned. */
    function QhListAddr(usb: Instance): (addr: Address)
      requires Valid() && IsKnown(usb)
      reads usb1State.qhs, usb1State.tds, usb2State.qhs, usb2State.tds
      ensures addr as int % QhListAlign == 0
      ensures usb == usb1 ==> addr == usb1State.qhBase
      ensures usb == usb2 ==> addr == usb2State.qhBase
    {
      StateOf(usb).qhBase
    }

    /** The two controllers are never told to use the same queue-head list address. */
    lemma ListAddrsDiffer(a: Instance, b: Instance)
      requires Valid() && IsKnown(a) && IsKnown(b)
      ensures QhListAddr(a) == QhListAddr(b) <==> a == b
    {
    }

    /** Publish the queue-head list of `usb` in its ASYNCLISTADDR register. */
    method AssignEndptListAddr(usb: Instance)
      requires Valid() && IsKnown(usb)
      modifies usb`asyncListAddr
      ensures usb.asyncListAddr == QhListAddr(usb)
    {
      var ptr := QhListAddr(usb);
      usb.asyncListAddr := ptr;
    }

    /** Hand every queue head of `usb` to the caller, slot by slot; allowed once per instance. */
    method StealQhs(usb: Instance) returns (qhs: array<Option<Qh>>)
      requires Valid() && IsKnown(usb)
      requires !StateOf(usb).qhsStolen
      modifies StateOf(usb)`qhsStolen
      ensures fresh(qhs) && qhs.Length == QhCount
      ensures qhs[..] == ZipAssign(Vacant(QhCount), StateOf(usb).qhs[..])
      ensures forall k :: 0 <= k < QhCount ==> qhs[k] == Some(StateOf(usb).qhs[k])
      ensures Distinct(qhs[..])
      ensures StateOf(usb).qhsStolen
      ensures StateOf(usb).tdsStolen == old(StateOf(usb).tdsStolen)
      ensures unchanged(if usb == usb1 then usb2State else usb1State)
    {
      var st := StateOf(usb);
      qhs := new Option<Qh>[QhCount](_ => None);
      ghost var empty := qhs[..];
      var i := 0;
      while i < qhs.Length && i < st.qhs.Length
        invariant 0 <= i <= QhCount
        invariant forall k :: 0 <= k < i ==> qhs[k] == Some(st.qhs[k])
        invariant forall k :: i <= k < QhCount ==> qhs[k] == None
      {
        qhs[i] := Some(st.qhs[i]);
        i := i + 1;
      }
      st.qhsStolen := true;
      assert empty == Vacant(QhCount);
      ZipAssignFills(empty, st.qhs[..]);
      ZipAssignDistinct(empty, st.qhs[..]);
      assert st.qhs[..][..QhCount] == st.qhs[..];
    }

    /** Hand every transfer descriptor of `usb` to the caller, slot by slot; allowed once per instance. */
    method StealTds(usb: Instance) returns (tds: array<Option<Td>>)
      requires Valid() && IsKnown(usb)
      requires !StateOf(usb).tdsStolen
      modifies StateOf(usb)`tdsStolen
      ensures fresh(tds) && tds.Length == QhCount
      ensures tds[..] == ZipAssign(Vacant(QhCount), StateOf(usb).tds[..])
      ensures forall k :: 0 <= k < QhCount ==> tds[k] == Some(StateOf(usb).tds[k])
      ensures Distinct(tds[..])
      ensures StateOf(usb).tdsStolen
      ensures StateOf(usb).qhsStolen == old(StateOf(usb).qhsStolen)
      ensures unchanged(if usb == usb1 then usb2State else usb1State)
    {
      var st := StateOf(usb);
      tds := new Option<Td>[QhCount](_ => None);
      ghost var empty := tds[..];
      var i := 0;
      while i < tds.Length && i < st.tds.Length
        invariant 0 <= i <= QhCount
        invariant forall k :: 0 <= k < i ==> tds[k] == Some(st.tds[k])
        invariant forall k :: i <= k < QhCount ==> tds[k] == None
      {
        tds[i] := Some(st.tds[i]);
        i := i + 1;
      }
      st.tdsStolen := true;
      assert empty == Vacant(QhCount);
      ZipAssignFills(empty, st.tds[..]);
      ZipAssignDistinct(empty, st.tds[..]);
      assert st.tds[..][..QhCount] == st.tds[..];
    }

    /** What the two instances hand out never aliases: no queue head or descriptor of one is handed out by the other. */
    lemma HandoutsNeverAlias(a: Instance, b: Instance)
      requires Valid() && IsKnown(a) && IsKnown(b) && a != b
      ensures forall i, j :: 0 <= i < QhCount && 0 <= j < QhCount ==>
        ZipAssign(Vacant(QhCount), StateOf(a).qhs[..])[i] != ZipAssign(Vacant(QhCount), StateOf(b).qhs[..])[j]
      ensures forall i, j :: 0 <= i < QhCount && 0 <= j < QhCount ==>
        ZipAssign(Vacant(QhCount), StateOf(a).tds[..])[i] != ZipAssign(Vacant(QhCount), StateOf(b).tds[..])[j]
    {
      var none: seq<Option<Qh>> := Vacant(QhCount);
      var noneTd: seq<Option<Td>> := Vacant(QhCount);
      var sa, sb := StateOf(a), StateOf(b);
      assert Disjoint(sa.qhs[..], sb.qhs[..]) && Disjoint(sa.tds[..], sb.tds[..]);
      ZipAssignDisjoint(none, sa.qhs[..], sb.qhs[..]);
      ZipAssignDisjoint(noneTd, sa.tds[..], sb.tds[..]);
    }
  }
}
