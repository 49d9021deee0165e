/** Service messages of a chat history ("X pinned a message", "game score",
    "payment sent") and the message each of them may depend on.

    A service item carries any subset of three runtime components: Pinned,
    GameScore and Payment. Each of them embeds the same dependent data: the id
    of the referenced message and a non-owning reference to that message once
    it has been resolved. The item consults at most one of them, chosen by a
    fixed priority, to report which message it depends on and whether it is
    ready to be shown in a notification. */
module HistoryService {
  import opened Wrappers

  /** A message id; 0 stands for "no message". */
  type MsgId = int

  /** The identity of a loaded history item. It stands for the `HistoryItem *msg`
      field of `HistoryServiceDependentData`: the referenced item is looked up,
      never owned. */
  type ItemId = int

  /** HistoryServiceDependentData: the referenced message id and, once the
      reference is resolved, the item it refers to (None is a null pointer). */
  datatype DependentData = DependentData(msgId: MsgId, msg: Option<ItemId>)

  /** The dependent data of a freshly constructed component. */
  const EmptyDependentData: DependentData := DependentData(0, None)

  /** The three runtime components that embed dependent data. */
  datatype Pinned = Pinned(dep: DependentData)
  datatype GameScore = GameScore(dep: DependentData, score: int)
  datatype Payment = Payment(dep: DependentData, amount: string)

  /** Which component a `HistoryServiceDependentData *` points into. */
  datatype ComponentKind = PinnedKind | GameScoreKind | PaymentKind

  /** A service item, reduced to the components it has attached. */
  datatype ServiceItem = ServiceItem(
    pinned: Option<Pinned>,
    gameScore: Option<GameScore>,
    payment: Option<Payment>)

  /** The order in which GetDependentData consults the components. */
  const PriorityOrder: seq<ComponentKind> := [PinnedKind, GameScoreKind, PaymentKind]

  /** Components as freshly constructed: default dependent data, zero score,
      empty amount. */
  function NewPinned(): Pinned { Pinned(EmptyDependentData) }
  function NewGameScore(): GameScore { GameScore(EmptyDependentData, 0) }
  function NewPayment(): Payment { Payment(EmptyDependentData, "") }

  /** Get<T>(): the dependent data embedded in component `k`, if attached. */
  function Get(s: ServiceItem, k: ComponentKind): Option<DependentData>
  {
    match k
    case PinnedKind => if s.pinned.Some? then Some(s.pinned.value.dep) else None
    case GameScoreKind => if s.gameScore.Some? then Some(s.gameScore.value.dep) else None
    case PaymentKind => if s.payment.Some? then Some(s.payment.value.dep) else None
  }

  predicate Has(s: ServiceItem, k: ComponentKind)
  {
    Get(s, k).Some?
  }

  predicate NoDependentComponents(s: ServiceItem)
  {
    s.pinned.None? && s.gameScore.None? && s.payment.None?
  }

  /** Reference definition of a priority choice: the first kind in `order`
      whose component is attached to `s`. */
  function FirstPresent(s: ServiceItem, order: seq<ComponentKind>): (r: Option<ComponentKind>)
    ensures r.None? <==> forall j :: 0 <= j < |order| ==> !Has(s, order[j])
    ensures r.Some? ==> r.value in order && Has(s, r.value)
  {
    if order == [] then None
    else if Has(s, order[0]) then Some(order[0])
    else
      var rest := FirstPresent(s, order[1..]);
      assert forall j :: 1 <= j < |order| ==> order[j] == order[1..][j - 1];
      rest
  }

  /** No attached kind is passed over: whenever the kind at position `j` is
      attached, the choice is found among the first `j + 1` kinds. */
  lemma {:induction false} FirstPresentPrecedes(s: ServiceItem, order: seq<ComponentKind>, j: nat)
    requires j < |order| && Has(s, order[j])
    ensures FirstPresent(s, order).Some? && FirstPresent(s, order).value in order[..j + 1]
  {
    if !Has(s, order[0]) {
      assert j > 0;
      FirstPresentPrecedes(s, order[1..], j - 1);
      assert order[1..][..j] == order[1..j + 1];
    }
  }

  /** The non-const `GetDependentData()`: the component whose dependent data
      the returned pointer addresses, None for a null pointer. Pinned wins over
      everything, GameScore over Payment. */
  function GetDependentData(s: ServiceItem): (r: Option<ComponentKind>)
    ensures s.pinned.Some? ==> r == Some(PinnedKind)
    ensures s.pinned.None? && s.gameScore.Some? ==> r == Some(GameScoreKind)
    ensures s.pinned.None? && s.gameScore.None? && s.payment.Some? ==> r == Some(PaymentKind)
    ensures r.None? <==> NoDependentComponents(s)
    ensures r.Some? ==> Has(s, r.value)
  {
    if s.pinned.Some? then Some(PinnedKind)
    else if s.gameScore.Some? then Some(GameScoreKind)
    else if s.payment.Some? then Some(PaymentKind)
    else None
  }

  /** The const `GetDependentData()`: read access to the same dependent data
      the non-const overload points at. */
  function GetDependentDataConst(s: ServiceItem): (r: Option<DependentData>)
    ensures r.None? <==> GetDependentData(s).None?
    ensures GetDependentData(s).Some? ==> r == Get(s, GetDependentData(s).value)
  {
    match GetDependentData(s)
    case Some(k) => Get(s, k)
    case None => None
  }

  /** `dependencyMsgId()`: the id of the message the item depends on, taken
      from the highest-priority attached component; 0 with no component. */
  function DependencyMsgId(s: ServiceItem): (r: MsgId)
    ensures s.pinned.Some? ==> r == s.pinned.value.dep.msgId
    ensures s.pinned.None? && s.gameScore.Some? ==> r == s.gameScore.value.dep.msgId
    ensures s.pinned.None? && s.gameScore.None? && s.payment.Some? ==> r == s.payment.value.dep.msgId
    ensures NoDependentComponents(s) ==> r == 0
  {
    match GetDependentDataConst(s)
    case Some(dependent) => dependent.msgId
    case None => 0
  }

  /** `notificationReady()`: the dependency is settled. The only item that is
      not ready is one whose selected component refers to a nonzero id that
      has not been resolved yet. */
  function NotificationReady(s: ServiceItem): (r: bool)
    ensures NoDependentComponents(s) ==> r
    ensures !r <==> (GetDependentDataConst(s).Some?
                     && GetDependentDataConst(s).value.msg.None?
                     && GetDependentDataConst(s).value.msgId != 0)
  {
    match GetDependentDataConst(s)
    case Some(dependent) => dependent.msg.Some? || dependent.msgId == 0
    case None => true
  }

  /** `needCheck()`: a service message never shows a delivery check. */
  function NeedCheck(s: ServiceItem): (r: bool)
    ensures !r
  {
    false
  }

  /** `serviceMsg()`: every item of this kind is a service message. */
  function ServiceMsg(s: ServiceItem): (r: bool)
    ensures r
  {
    true
  }

  /** The hand-written priority chain picks exactly what the reference
      definition picks over PriorityOrder. */
  lemma GetDependentDataIsFirstPresent(s: ServiceItem)
    ensures GetDependentData(s) == FirstPresent(s, PriorityOrder)
  {
    var o := PriorityOrder;
    assert o[1..] == [GameScoreKind, PaymentKind] && o[2..] == [PaymentKind] && o[3..] == [];
    if s.pinned.None? {
      assert FirstPresent(s, o) == FirstPresent(s, o[1..]);
      if s.gameScore.None? {
        assert FirstPresent(s, o[1..]) == FirstPresent(s, o[2..]);
        if s.payment.None? {
          assert FirstPresent(s, o[2..]) == FirstPresent(s, o[3..]);
        }
      }
    }
  }

  /** dependencyMsgId and notificationReady agree: an item is ready exactly
      when it depends on no message (id 0) or its reference is resolved. */
  lemma ReadyIffNoIdOrResolved(s: ServiceItem)
    ensures NotificationReady(s) <==>
      (DependencyMsgId(s) == 0 || (GetDependentDataConst(s).Some? && GetDependentDataConst(s).value.msg.Some?))
  {
  }

  /** An item that is not ready always names a message to wait for. */
  lemma NotReadyHasDependency(s: ServiceItem)
    requires !NotificationReady(s)
    ensures DependencyMsgId(s) != 0 && !NoDependentComponents(s)
  {
  }

  /** Components as freshly constructed refer to nothing, so an item whose
      attached components are all fresh is ready and depends on no message. */
  lemma FreshComponentsAreReady(s: ServiceItem)
    requires s.pinned.None? || s.pinned == Some(NewPinned())
    requires s.gameScore.None? || s.gameScore.value.dep == NewGameScore().dep
    requires s.payment.None? || s.payment.value.dep == NewPayment().dep
    ensures NotificationReady(s)
    ensures DependencyMsgId(s) == 0
  {
  }

  /** Writing `d` through the pointer into component `k`: that component's
      dependent data becomes `d`. The pointer addresses only the dependent
      data, so every other component and every score and amount are kept. */
  function WriteDependent(s: ServiceItem, k: ComponentKind, d: DependentData): (r: ServiceItem)
    requires Has(s, k)
    ensures Get(r, k) == Some(d)
    ensures forall k' :: k' != k ==> Get(r, k') == Get(s, k')
    ensures r.pinned.Some? == s.pinned.Some? && r.gameScore.Some? == s.gameScore.Some? && r.payment.Some? == s.payment.Some?
    ensures s.gameScore.Some? ==> r.gameScore.value.score == s.gameScore.value.score
    ensures s.payment.Some? ==> r.payment.value.amount == s.payment.value.amount
  {
    match k
    case PinnedKind => s.(pinned := Some(s.pinned.value.(dep := d)))
    case GameScoreKind => s.(gameScore := Some(s.gameScore.value.(dep := d)))
    case PaymentKind => s.(payment := Some(s.payment.value.(dep := d)))
  }

  /** Writing through the pointer the non-const overload returns keeps the
      same component selected, and the item then reports exactly what was
      written: its id, and readiness once the reference is resolved. */
  lemma WriteThroughSelected(s: ServiceItem, d: DependentData)
    requires GetDependentData(s).Some?
    ensures GetDependentData(WriteDependent(s, GetDependentData(s).value, d)) == GetDependentData(s)
    ensures GetDependentDataConst(WriteDependent(s, GetDependentData(s).value, d)) == Some(d)
    ensures DependencyMsgId(WriteDependent(s, GetDependentData(s).value, d)) == d.msgId
    ensures NotificationReady(WriteDependent(s, GetDependentData(s).value, d)) <==> (d.msg.Some? || d.msgId == 0)
  {
  }

  /** A component shadowed by a higher-priority one is never consulted:
      writing into it changes neither the id nor the readiness. */
  lemma WriteToShadowedIsInvisible(s: ServiceItem, k: ComponentKind, d: DependentData)
    requires Has(s, k) && GetDependentData(s) != Some(k)
    ensures GetDependentDataConst(WriteDependent(s, k, d)) == GetDependentDataConst(s)
    ensures DependencyMsgId(WriteDependent(s, k, d)) == DependencyMsgId(s)
    ensures NotificationReady(WriteDependent(s, k, d)) == NotificationReady(s)
  {
  }
}
