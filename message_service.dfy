/** Sending a message to a bus driver and the simulated SMS lifecycle
    (backend/message_service.py). The delays and random draws of the
    simulation are inputs: SmsDraws holds the outcomes of one run and Fault
    says where, if anywhere, an exception interrupts it. */
module MessageService {
  import opened Common
  import opened Records
  import opened Crud
  import opened MessageTemplates

  const FallbackText := "ALERT: Please check your bus status immediately."

  /** The template selection of send_driver_message: the overspeed text needs
      both numbers, the door text needs the speed, anything else (custom text,
      an unknown type, a missing number) gets the fallback. */
  function BaseMessage(templateType: string, speed: Option<real>, threshold: Option<real>, fixed1: real -> string): string {
    if templateType == "overspeed" && speed.Some? && threshold.Some? then
      OverspeedTemplate(speed.value, threshold.value, fixed1)
    else if templateType == "door_open" && speed.Some? then
      DoorTemplate(speed.value, fixed1)
    else
      FallbackText
  }

  /** Which text BaseMessage chose can be read off the text itself: the
      overspeed prefix exactly when the overspeed template applies, the door
      prefix exactly when the door template applies, the fallback otherwise. */
  lemma BaseMessageChoice(templateType: string, speed: Option<real>, threshold: Option<real>, fixed1: real -> string)
    ensures var r := BaseMessage(templateType, speed, threshold, fixed1);
      && (OverspeedPrefix <= r <==> templateType == "overspeed" && speed.Some? && threshold.Some?)
      && (DoorPrefix <= r <==> !(templateType == "overspeed" && speed.Some? && threshold.Some?) &&
                               templateType == "door_open" && speed.Some?)
      && (r == FallbackText <==> !(OverspeedPrefix <= r) && !(DoorPrefix <= r))
  {
    var r := BaseMessage(templateType, speed, threshold, fixed1);
    if templateType == "overspeed" && speed.Some? && threshold.Some? {
      OverspeedTemplateShape(speed.value, threshold.value, fixed1);
      assert r[7] == 'O';
    } else if templateType == "door_open" && speed.Some? {
      DoorTemplateShape(speed.value, fixed1);
      assert r[7] == 'D';
    } else {
      assert FallbackText[7] == 'P';
    }
  }

  /** The stored text: the base message with the note, if any, appended. */
  function MessageText(templateType: string, speed: Option<real>, threshold: Option<real>,
                       customNote: Option<string>, fixed1: real -> string): string
  {
    CustomTemplate(BaseMessage(templateType, speed, threshold, fixed1), customNote)
  }

  /** `send_driver_message` up to the point where it starts the lifecycle
      thread: the record is stored as "pending" and its id returned. A broken
      foreign key makes the commit raise. */
  method SendDriverMessage(store: Store, busId: string, templateType: string, sentByUserId: int,
                           alertId: Option<int>, customNote: Option<string>,
                           speed: Option<real>, threshold: Option<real>, now: int, fixed1: real -> string)
    returns (r: Result<int>)
    requires store.Valid()
    modifies store`messages, store`messageSeq
    ensures store.Valid()
    ensures r.Ok? <==> HasBus(store.buses, busId) && (alertId.Some? ==> HasAlert(store.alerts, alertId.value)) &&
                       HasUser(store.users, sentByUserId)
    ensures r.Ok? ==> r.value == old(store.messageSeq) && store.messages == old(store.messages) + [
      DriverMessage(r.value, busId, alertId, MessageText(templateType, speed, threshold, customNote, fixed1),
                    templateType, customNote, sentByUserId, now, StatusPending, None, None, None)]
    ensures r.Ok? ==> store.messageSeq == old(store.messageSeq) + 1
    ensures r.Err? ==> store.messages == old(store.messages) && store.messageSeq == old(store.messageSeq)
    ensures r.Err? ==> r.error.status == InternalError
  {
    var base := BaseMessage(templateType, speed, threshold, fixed1);
    var text := CustomTemplate(base, customNote);
    var created := store.CreateDriverMessage(busId, text, templateType, sentByUserId, alertId, customNote, now);
    if created.Err? {
      return Err(created.error);
    }
    r := Ok(created.value.id);
  }

  /** Outcomes of the random draws of one lifecycle run: the gateway call
      fails, the delivery fails, the read receipt arrives, and the clock
      readings taken for delivered_at and read_at. */
  datatype SmsDraws = SmsDraws(
    sendFails: bool,
    deliveryFails: bool,
    readArrives: bool,
    deliveredAt: int,
    readAt: int)

  /** An exception raised by the status write with that index (counted from
      0), with its text; whether the recovery write of "failed" succeeds. */
  datatype Fault = NoFault | FaultAt(step: nat, text: string, recoveryWrites: bool)

  const GatewayTimeout := "SMS gateway timeout"
  const DeliveryFailedText := "Message delivery failed - recipient unreachable"

  function FailedWith(text: string): StatusWrite {
    StatusWrite(StatusFailed, None, None, Some(text))
  }

  /** The status writes of a run without exceptions. */
  function LifecycleWrites(d: SmsDraws): seq<StatusWrite> {
    if d.sendFails then [FailedWith(GatewayTimeout)]
    else if d.deliveryFails then [StatusWrite(StatusSent, None, None, None), FailedWith(DeliveryFailedText)]
    else if !d.readArrives then
      [StatusWrite(StatusSent, None, None, None), StatusWrite(StatusDelivered, Some(d.deliveredAt), None, None)]
    else
      [StatusWrite(StatusSent, None, None, None), StatusWrite(StatusDelivered, Some(d.deliveredAt), None, None),
       StatusWrite(StatusRead, None, Some(d.readAt), None)]
  }

  /** The writes that take effect: an exception at write k leaves the first k
      and then the recovery write, if that one succeeds. */
  function EffectiveWrites(d: SmsDraws, f: Fault): (r: seq<StatusWrite>)
    ensures f.NoFault? ==> r == LifecycleWrites(d)
  {
    var ws := LifecycleWrites(d);
    match f
    case NoFault => ws
    case FaultAt(k, text, recovered) =>
      if k < |ws| then ws[..k] + (if recovered then [FailedWith(text)] else []) else ws
  }

  function Statuses(ws: seq<StatusWrite>): (r: seq<string>)
    ensures |r| == |ws| && forall i :: 0 <= i < |ws| ==> r[i] == ws[i].status
  {
    seq(|ws|, i requires 0 <= i < |ws| => ws[i].status)
  }

  /** How far along the lifecycle a status is. */
  function Rank(status: string): int {
    if status == StatusPending then 0
    else if status == StatusSent then 1
    else if status == StatusDelivered then 2
    else if status == StatusRead then 3
    else 4
  }

  /** Without an exception the statuses written are one of four sequences. */
  lemma LifecycleShapes(d: SmsDraws)
    ensures var st := Statuses(LifecycleWrites(d));
      || st == [StatusFailed]
      || st == [StatusSent, StatusFailed]
      || st == [StatusSent, StatusDelivered]
      || st == [StatusSent, StatusDelivered, StatusRead]
  {
  }

  /** Along a run without an exception the status only moves forward, nothing
      follows "failed", delivered_at comes only with "delivered", read_at only
      with "read", and an error text only with "failed". */
  lemma {:induction false} LifecycleMovesForward(d: SmsDraws)
    ensures var ws := LifecycleWrites(d);
      && (forall i, j :: 0 <= i < j < |ws| ==> Rank(ws[i].status) < Rank(ws[j].status))
      && (forall i :: 0 <= i < |ws| && ws[i].status == StatusFailed ==> i == |ws| - 1)
      && (forall i :: 0 <= i < |ws| ==> (ws[i].deliveredAt.Some? <==> ws[i].status == StatusDelivered))
      && (forall i :: 0 <= i < |ws| ==> (ws[i].readAt.Some? <==> ws[i].status == StatusRead))
      && (forall i :: 0 <= i < |ws| ==> (ws[i].errorMessage.Some? <==> ws[i].status == StatusFailed))
  {
    assert Rank(StatusSent) == 1 && Rank(StatusDelivered) == 2;
    assert Rank(StatusRead) == 3 && Rank(StatusFailed) == 4;
  }

  /** An interrupted run ends with "failed" carrying the exception's text,
      after a prefix of the uninterrupted run. */
  lemma FaultEndsFailed(d: SmsDraws, k: nat, text: string)
    requires k < |LifecycleWrites(d)|
    ensures var ws := EffectiveWrites(d, FaultAt(k, text, true));
      ws[..k] == LifecycleWrites(d)[..k] && |ws| == k + 1 && ws[k] == FailedWith(text)
  {
  }

  /** The message table after a sequence of status writes to one message. */
  function ApplyWrites(msgs: seq<DriverMessage>, id: int, ws: seq<StatusWrite>): (r: seq<DriverMessage>)
    ensures |r| == |msgs|
    decreases |ws|
  {
    if ws == [] then msgs else ApplyWrites(UpdatedMessages(msgs, id, ws[0]), id, ws[1..])
  }

  lemma {:induction false} ApplyWritesAppend(msgs: seq<DriverMessage>, id: int, a: seq<StatusWrite>, b: seq<StatusWrite>)
    ensures ApplyWrites(msgs, id, a + b) == ApplyWrites(ApplyWrites(msgs, id, a), id, b)
    decreases |a|
  {
    if a != [] {
      assert (a + b)[0] == a[0] && (a + b)[1..] == a[1..] + b;
      ApplyWritesAppend(UpdatedMessages(msgs, id, a[0]), id, a[1..], b);
    } else {
      assert a + b == b;
    }
  }

  /** Status writes to one message leave every other message as it was. */
  lemma {:induction false} ApplyWritesOthers(msgs: seq<DriverMessage>, id: int, ws: seq<StatusWrite>)
    ensures forall j :: 0 <= j < |msgs| && msgs[j].id != id ==> ApplyWrites(msgs, id, ws)[j] == msgs[j]
    decreases |ws|
  {
    if ws != [] {
      var next := UpdatedMessages(msgs, id, ws[0]);
      ApplyWritesOthers(next, id, ws[1..]);
      forall j | 0 <= j < |msgs| && msgs[j].id != id ensures next[j] == msgs[j] {
        var i := MessageIndex(msgs, id);
        if i.Some? {
          assert j != i.value;
        }
      }
    }
  }

  /** One status write of the lifecycle, possibly interrupted by the fault:
      an exception at this write is answered by the recovery write, and the
      run stops. */
  method Step(store: Store, id: int, k: nat, w: StatusWrite, f: Fault) returns (stop: bool)
    requires store.Valid()
    modifies store`messages
    ensures store.Valid()
    ensures stop <==> f.FaultAt? && f.step == k
    ensures store.messages == ApplyWrites(old(store.messages), id, StepWrites(k, w, f))
  {
    if f.FaultAt? && f.step == k {
      if f.recoveryWrites {
        var _ := store.UpdateMessageStatus(id, FailedWith(f.text));
      }
      assert ApplyWrites(old(store.messages), id, []) == old(store.messages);
      return true;
    }
    var _ := store.UpdateMessageStatus(id, w);
    stop := false;
  }

  function StepWrites(k: nat, w: StatusWrite, f: Fault): seq<StatusWrite> {
    if f.FaultAt? && f.step == k then (if f.recoveryWrites then [FailedWith(f.text)] else []) else [w]
  }

  /** `_simulate_sms_lifecycle` for one set of draws and one fault: the
      message ends as the effective writes leave it. */
  method SimulateSmsLifecycle(store: Store, id: int, d: SmsDraws, f: Fault)
    requires store.Valid()
    modifies store`messages
    ensures store.Valid()
    ensures store.messages == ApplyWrites(old(store.messages), id, EffectiveWrites(d, f))
  {
    var ws := LifecycleWrites(d);
    EffectiveSteps(d, f);
    if d.sendFails {
      var _ := Step(store, id, 0, FailedWith(GatewayTimeout), f);
      return;
    }
    var stop := Step(store, id, 0, ws[0], f);
    if stop {
      return;
    }
    if d.deliveryFails {
      var _ := Step(store, id, 1, FailedWith(DeliveryFailedText), f);
      ApplyWritesAppend(old(store.messages), id, [ws[0]], StepWrites(1, ws[1], f));
      return;
    }
    stop := Step(store, id, 1, ws[1], f);
    ApplyWritesAppend(old(store.messages), id, [ws[0]], StepWrites(1, ws[1], f));
    if stop {
      return;
    }
    if d.readArrives {
      var _ := Step(store, id, 2, ws[2], f);
      ApplyWritesAppend(old(store.messages), id, [ws[0], ws[1]], StepWrites(2, ws[2], f));
    }
  }

  /** The effective writes, cut at the steps the method takes them in. */
  lemma EffectiveSteps(d: SmsDraws, f: Fault)
    ensures var ws := LifecycleWrites(d);
      var at0 := f.FaultAt? && f.step == 0;
      var at1 := f.FaultAt? && f.step == 1;
      && (d.sendFails ==> EffectiveWrites(d, f) == StepWrites(0, FailedWith(GatewayTimeout), f))
      && (!d.sendFails && at0 ==> EffectiveWrites(d, f) == StepWrites(0, ws[0], f))
      && (!d.sendFails && !at0 && d.deliveryFails ==>
            EffectiveWrites(d, f) == [ws[0]] + StepWrites(1, FailedWith(DeliveryFailedText), f))
      && (!d.sendFails && !at0 && !d.deliveryFails && at1 ==> EffectiveWrites(d, f) == [ws[0]] + StepWrites(1, ws[1], f))
      && (!d.sendFails && !at0 && !at1 && !d.deliveryFails && d.readArrives ==>
            EffectiveWrites(d, f) == [ws[0], ws[1]] + StepWrites(2, ws[2], f))
      && (!d.sendFails && !at0 && !at1 && !d.deliveryFails && !d.readArrives ==> EffectiveWrites(d, f) == [ws[0], ws[1]])
  {
    var ws := LifecycleWrites(d);
    if f.FaultAt? && f.step < |ws| {
      assert ws[..0] == [];
      if f.step >= 1 { assert ws[..1] == [ws[0]]; }
      if f.step >= 2 { assert ws[..2] == [ws[0], ws[1]]; }
    }
  }
}
