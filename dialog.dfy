/**
 * The page's message and dialog area: requests queue up in arrival order,
 * one message or one dialog shows at a time, a shown item counts its delay
 * down and completes itself when the delay runs out (a dialog without a
 * delay waits for a button), and items can be removed by id.
 *
 * Delays are kept in tenths of a second, the step of the count-down.
 */
module Dialog {
  import opened Wrappers

  /** A completion handler; `Noop` stands for `angular.noop`, the default when none is given. */
  datatype Callback = Noop | Handler(tag: int)

  /** One call of a completion handler with the chosen button (or -1). */
  datatype Call = Call(cb: Callback, choice: int)

  datatype ItemKind = Message | Dialog

  /** A `MsgRequest` or `DialogRequest` (`nodelay` is never set on a message). */
  datatype Item = Item(
    kind: ItemKind,
    id: int,
    dialogClass: string,
    messageType: string,
    message: string,
    buttons: seq<string>,
    delay: int,
    startProgress: int,
    nodelay: bool,
    cb: Callback)

  /** The display class for a request type: warnings stay warnings, errors show as danger, anything else as info. */
  function DialogClass(dtype: string): (r: string)
    ensures r == "warning" || r == "danger" || r == "info"
    ensures r == "warning" <==> dtype == "warning"
    ensures r == "danger" <==> dtype == "error"
  {
    if dtype == "warning" then "warning"
    else if dtype == "error" then "danger"
    else "info"
  }

  /** `angular.uppercase`: ASCII letters raised, everything else kept. */
  function Uppercase(s: string): (r: string)
    ensures |r| == |s|
    ensures forall i :: 0 <= i < |s| ==> r[i] == if 'a' <= s[i] <= 'z' then (s[i] as int - 32) as char else s[i]
  {
    if |s| == 0 then [] else [if 'a' <= s[0] <= 'z' then (s[0] as int - 32) as char else s[0]] + Uppercase(s[1..])
  }

  /** `delay || default`: a missing or zero delay is falsy. */
  function DelayOr(delay: Option<int>, default: int): (r: int)
    ensures delay.Some? && delay.value != 0 ==> r == delay.value
    ensures delay.None? || delay.value == 0 ==> r == default
  {
    if delay.None? || delay.value == 0 then default else delay.value
  }

  /** `new MsgRequest(...)`: twenty seconds unless told otherwise, no buttons unless given. */
  function MsgRequest(id: int, dtype: string, msg: string, buttons: Option<seq<string>>, delay: Option<int>, cb: Callback): (m: Item)
    ensures m.kind == Message && m.id == id && m.message == msg && m.cb == cb && !m.nodelay
    ensures m.dialogClass == DialogClass(dtype) && m.messageType == Uppercase(dtype)
    ensures m.buttons == buttons.GetOr([])
    ensures (delay.None? || delay.value == 0) ==> m.delay == 200
    ensures (delay.Some? && delay.value != 0) ==> m.delay == 10 * delay.value
    ensures m.startProgress == m.delay && m.delay != 0
  {
    var d := 10 * DelayOr(delay, 20);
    Item(Message, id, DialogClass(dtype), Uppercase(dtype), msg, buttons.GetOr([]), d, d, false, cb)
  }

  /** `new DialogRequest(...)`: no count-down unless a delay is given, and at least an 'ok' button. */
  function DialogRequest(id: int, dtype: string, msg: string, buttons: Option<seq<string>>, delay: Option<int>, cb: Callback): (m: Item)
    ensures m.kind == Dialog && m.id == id && m.message == msg && m.cb == cb
    ensures m.dialogClass == DialogClass(dtype) && m.messageType == Uppercase(dtype)
    ensures buttons.GetOr([]) == [] ==> m.buttons == ["ok"]
    ensures buttons.GetOr([]) != [] ==> m.buttons == buttons.value
    ensures (delay.None? || delay.value == 0) ==> m.delay == -10
    ensures (delay.Some? && delay.value != 0) ==> m.delay == 10 * delay.value
    ensures m.startProgress == m.delay
    ensures m.nodelay <==> m.delay < 0
  {
    var d := 10 * DelayOr(delay, -1);
    var b := buttons.GetOr([]);
    Item(Dialog, id, DialogClass(dtype), Uppercase(dtype), msg, if |b| == 0 then ["ok"] else b, d, d, d < 0, cb)
  }

  /** The choice an item reports when its delay runs out: the first (default) button, or -1 without buttons. */
  function AutoChoice(item: Item): (c: int)
    ensures c == 0 <==> |item.buttons| > 0
    ensures c == -1 <==> |item.buttons| == 0
  {
    if |item.buttons| > 0 then 0 else -1
  }

  /** `pendingItems.filter(test => test.id != id)`. */
  function WithoutId(items: seq<Item>, id: int): (r: seq<Item>)
    ensures |r| <= |items|
    ensures forall x :: x in r <==> x in items && x.id != id
  {
    if |items| == 0 then []
    else
      var rest := WithoutId(items[1..], id);
      assert forall x :: x in items <==> x == items[0] || x in items[1..];
      if items[0].id != id then [items[0]] + rest else rest
  }

  /** The filter works piece by piece, so the kept items stay in their order. */
  lemma {:induction false} WithoutIdAppend(a: seq<Item>, b: seq<Item>, id: int)
    ensures WithoutId(a + b, id) == WithoutId(a, id) + WithoutId(b, id)
  {
    if |a| > 0 {
      var t := a + b;
      assert t[0] == a[0] && t[1..] == a[1..] + b;
      WithoutIdAppend(a[1..], b, id);
      var head := if a[0].id != id then [a[0]] else [];
      assert WithoutId(t, id) == head + WithoutId(t[1..], id);
      assert WithoutId(a, id) == head + WithoutId(a[1..], id);
    } else {
      assert a + b == b;
    }
  }

  /** Items with other ids are all kept, in order. */
  lemma {:induction false} WithoutAbsentId(items: seq<Item>, id: int)
    requires forall i :: 0 <= i < |items| ==> items[i].id != id
    ensures WithoutId(items, id) == items
  {
    if |items| > 0 {
      WithoutAbsentId(items[1..], id);
      assert [items[0]] + items[1..] == items;
    }
  }

  // ---------------------------------------------------------------------------
  // The display area's state and its transitions
  // ---------------------------------------------------------------------------

  /** The shown message, the shown dialog, the queue, and every handler call so far. */
  datatype Screen = Screen(visibleMessage: Option<Item>, visibleDialog: Option<Item>, pending: seq<Item>, calls: seq<Call>)

  /** The item the count-down works on: the shown message if any, else the shown dialog. */
  function Current(s: Screen): Option<Item> {
    if s.visibleMessage.Some? then s.visibleMessage else s.visibleDialog
  }

  function Added(s: Screen, item: Item): Screen {
    s.(pending := s.pending + [item])
  }

  function MessageCompleted(s: Screen, id: int, cb: Callback, choice: int): Screen {
    var shown := if s.visibleMessage.Some? && s.visibleMessage.value.id == id then None else s.visibleMessage;
    s.(visibleMessage := shown, calls := s.calls + [Call(cb, choice)])
  }

  function DialogCompleted(s: Screen, id: int, cb: Callback, choice: int): Screen {
    var shown := if s.visibleDialog.Some? && s.visibleDialog.value.id == id then None else s.visibleDialog;
    s.(visibleDialog := shown, calls := s.calls + [Call(cb, choice)])
  }

  function MessageRemoved(s: Screen, id: int): Screen {
    if s.visibleMessage.Some? && s.visibleMessage.value.id == id then s.(visibleMessage := None)
    else s.(pending := WithoutId(s.pending, id))
  }

  function DialogRemoved(s: Screen, id: int): Screen {
    if s.visibleDialog.Some? && s.visibleDialog.value.id == id then s.(visibleDialog := None)
    else s.(pending := WithoutId(s.pending, id))
  }

  /** The count-down step: the current item loses a tenth of a second when its interval has passed. */
  function Ticked(s: Screen, tickDue: bool): Screen {
    if !tickDue then s
    else if s.visibleMessage.Some? then s.(visibleMessage := Some(s.visibleMessage.value.(delay := s.visibleMessage.value.delay - 1)))
    else if s.visibleDialog.Some? then s.(visibleDialog := Some(s.visibleDialog.value.(delay := s.visibleDialog.value.delay - 1)))
    else s
  }

  /** A current item whose delay has run out completes with its default choice, unless it is a dialog without a delay. */
  function TimedOut(s: Screen): Screen {
    match Current(s)
    case None => s
    case Some(cur) =>
      if cur.delay >= 0 then s
      else if s.visibleMessage.Some? then MessageCompleted(s, cur.id, cur.cb, AutoChoice(cur))
      else if !cur.nodelay then DialogCompleted(s, cur.id, cur.cb, AutoChoice(cur))
      else s
  }

  /** With nothing shown, the front of the queue is shown in the place for its kind. */
  function Promoted(s: Screen): Screen {
    if s.visibleMessage.None? && s.visibleDialog.None? && |s.pending| > 0 then
      var next := s.pending[0];
      if next.kind == Message then s.(visibleMessage := Some(next), pending := s.pending[1..])
      else s.(visibleDialog := Some(next), pending := s.pending[1..])
    else s
  }

  /** One pass of `refreshItem`. */
  function Refreshed(s: Screen, tickDue: bool): Screen {
    Promoted(TimedOut(Ticked(s, tickDue)))
  }

  /** Promotion takes the front of the queue, and only when nothing is shown. */
  lemma PromotionTakesFront(s: Screen)
    ensures var t := Promoted(s);
      && (s.visibleMessage.Some? || s.visibleDialog.Some? || s.pending == [] ==> t == s)
      && (s.visibleMessage.None? && s.visibleDialog.None? && s.pending != [] ==>
            && t.pending == s.pending[1..] && Current(t) == Some(s.pending[0])
            && (t.visibleMessage.Some? <==> s.pending[0].kind == Message)
            && t.calls == s.calls)
  {
  }

  /** First in, first out: an added item goes behind everything already waiting. */
  lemma QueueIsFifo(s: Screen, item: Item)
    requires s.pending != [] || s.visibleMessage.Some? || s.visibleDialog.Some?
    ensures Promoted(Added(s, item)) == Added(Promoted(s), item)
  {
    if s.visibleMessage.None? && s.visibleDialog.None? {
      assert (s.pending + [item])[1..] == s.pending[1..] + [item];
    }
  }

  /** Removing by id takes the shown item when it has that id, and otherwise every waiting item with that id. */
  lemma RemoveById(s: Screen, a: seq<Item>, b: seq<Item>, id: int)
    requires s.pending == a + b
    ensures var t := MessageRemoved(s, id);
      && (s.visibleMessage.Some? && s.visibleMessage.value.id == id ==> t.visibleMessage.None? && t.pending == s.pending)
      && (!(s.visibleMessage.Some? && s.visibleMessage.value.id == id) ==>
            t.visibleMessage == s.visibleMessage && t.pending == WithoutId(a, id) + WithoutId(b, id)
            && forall x :: x in t.pending ==> x.id != id)
      && t.calls == s.calls && t.visibleDialog == s.visibleDialog
    ensures var t := DialogRemoved(s, id);
      && (s.visibleDialog.Some? && s.visibleDialog.value.id == id ==> t.visibleDialog.None? && t.pending == s.pending)
      && (!(s.visibleDialog.Some? && s.visibleDialog.value.id == id) ==>
            t.visibleDialog == s.visibleDialog && t.pending == WithoutId(a, id) + WithoutId(b, id)
            && forall x :: x in t.pending ==> x.id != id)
      && t.calls == s.calls && t.visibleMessage == s.visibleMessage
  {
    WithoutIdAppend(a, b, id);
  }

  /** A completion always calls the handler, and clears the shown item only when the ids match. */
  lemma CompletionCallsHandler(s: Screen, id: int, cb: Callback, choice: int)
    ensures var t := MessageCompleted(s, id, cb, choice);
      && t.calls == s.calls + [Call(cb, choice)]
      && (t.visibleMessage.None? <==> s.visibleMessage.None? || s.visibleMessage.value.id == id)
      && t.visibleDialog == s.visibleDialog && t.pending == s.pending
    ensures var t := DialogCompleted(s, id, cb, choice);
      && t.calls == s.calls + [Call(cb, choice)]
      && (t.visibleDialog.None? <==> s.visibleDialog.None? || s.visibleDialog.value.id == id)
      && t.visibleMessage == s.visibleMessage && t.pending == s.pending
  {
  }

  /** A shown message whose delay has run out completes with choice 0 when it has buttons, else -1. */
  lemma MessageTimesOut(s: Screen)
    requires s.visibleMessage.Some? && s.visibleMessage.value.delay < 0
    ensures var m := s.visibleMessage.value;
      TimedOut(s) == s.(visibleMessage := None, calls := s.calls + [Call(m.cb, if |m.buttons| > 0 then 0 else -1)])
  {
  }

  /** A dialog without a delay never completes by itself, however long it is shown. */
  lemma NoDelayDialogStays(s: Screen, tickDue: bool)
    requires s.visibleMessage.None? && s.visibleDialog.Some? && s.visibleDialog.value.nodelay
    ensures var t := Refreshed(s, tickDue);
      t.visibleDialog.Some? && t.visibleDialog.value.id == s.visibleDialog.value.id && t.calls == s.calls && t.pending == s.pending
  {
  }

  /** A requested dialog without a delay is such a dialog. */
  lemma UndelayedDialogWaits(id: int, dtype: string, msg: string, buttons: Option<seq<string>>, cb: Callback)
    ensures DialogRequest(id, dtype, msg, buttons, None, cb).nodelay
    ensures DialogRequest(id, dtype, msg, buttons, Some(-1), cb).nodelay
  {
  }

  /** `ESIProxyDialogCtrl`: the display area's fields and event handlers. */
  class DialogController {
    var visibleMessage: Option<Item>
    var visibleDialog: Option<Item>
    var pendingItems: seq<Item>
    /** The handler calls made so far, in order. */
    var calls: seq<Call>

    function State(): Screen
      reads this
    {
      Screen(visibleMessage, visibleDialog, pendingItems, calls)
    }

    constructor ()
      ensures State() == Screen(None, None, [], [])
    {
      visibleMessage := None;
      visibleDialog := None;
      pendingItems := [];
      calls := [];
    }

    /** The `AddMessage` event. */
    method AddMessage(id: int, dtype: string, msg: string, buttons: Option<seq<string>>, delay: Option<int>, cb: Callback)
      modifies this
      ensures State() == Added(old(State()), MsgRequest(id, dtype, msg, buttons, delay, cb))
    {
      var m := MsgRequest(id, dtype, msg, buttons, delay, cb);
      pendingItems := pendingItems + [m];
    }

    /** The `AddDialog` event. */
    method AddDialog(id: int, dtype: string, msg: string, buttons: Option<seq<string>>, delay: Option<int>, cb: Callback)
      modifies this
      ensures State() == Added(old(State()), DialogRequest(id, dtype, msg, buttons, delay, cb))
    {
      var m := DialogRequest(id, dtype, msg, buttons, delay, cb);
      pendingItems := pendingItems + [m];
    }

    /** The `RemoveMessage` event. */
    method RemoveMessage(id: int)
      modifies this
      ensures State() == MessageRemoved(old(State()), id)
    {
      if visibleMessage.Some? && visibleMessage.value.id == id {
        visibleMessage := None;
      } else {
        pendingItems := WithoutId(pendingItems, id);
      }
    }

    /** The `RemoveDialog` event. */
    method RemoveDialog(id: int)
      modifies this
      ensures State() == DialogRemoved(old(State()), id)
    {
      if visibleDialog.Some? && visibleDialog.value.id == id {
        visibleDialog := None;
      } else {
        pendingItems := WithoutId(pendingItems, id);
      }
    }

    /** `handleMessageComplete`. */
    method HandleMessageComplete(id: int, cb: Callback, choice: int)
      modifies this
      ensures State() == MessageCompleted(old(State()), id, cb, choice)
    {
      if visibleMessage.Some? && visibleMessage.value.id == id {
        visibleMessage := None;
      }
      calls := calls + [Call(cb, choice)];
    }

    /** `handleDialogComplete`. */
    method HandleDialogComplete(id: int, cb: Callback, choice: int)
      modifies this
      ensures State() == DialogCompleted(old(State()), id, cb, choice)
    {
      if visibleDialog.Some? && visibleDialog.value.id == id {
        visibleDialog := None;
      }
      calls := calls + [Call(cb, choice)];
    }

    /** `refreshItem`, with the clock reduced to whether the item's tenth of a second has passed. */
    method RefreshItem(tickDue: bool)
      modifies this
      ensures State() == Refreshed(old(State()), tickDue)
    {
      var isMsg := visibleMessage.Some?;
      var cur := if isMsg then visibleMessage else visibleDialog;
      if cur.Some? {
        var item := cur.value;
        if tickDue {
          item := item.(delay := item.delay - 1);
          if isMsg {
            visibleMessage := Some(item);
          } else {
            visibleDialog := Some(item);
          }
        }
        if item.delay < 0 {
          if isMsg {
            HandleMessageComplete(item.id, item.cb, AutoChoice(item));
          } else if !item.nodelay {
            HandleDialogComplete(item.id, item.cb, AutoChoice(item));
          }
        }
      }
      if visibleMessage.None? && visibleDialog.None? && |pendingItems| > 0 {
        var next := pendingItems[0];
        pendingItems := pendingItems[1..];
        if next.kind == Message {
          visibleMessage := Some(next);
        } else {
          visibleDialog := Some(next);
        }
      }
    }
  }

  /** `DialogService`: hands out ids from one counter and queues requests on the display area. */
  class DialogService {
    var itemID: int
    /** The ids handed out so far. */
    ghost var issued: seq<int>

    ghost predicate Valid()
      reads this
    {
      (forall i, j :: 0 <= i < j < |issued| ==> issued[i] < issued[j])
      && (forall i :: 0 <= i < |issued| ==> issued[i] < itemID)
    }

    constructor ()
      ensures Valid() && itemID == 1 && issued == []
    {
      itemID := 1;
      issued := [];
    }

    /** The next id; every id is greater than all handed out before it. */
    method NextId() returns (id: int)
      requires Valid()
      modifies this
      ensures Valid() && id == old(itemID) && issued == old(issued) + [id]
      ensures forall i :: 0 <= i < |old(issued)| ==> old(issued)[i] < id
    {
      id := itemID;
      itemID := itemID + 1;
      issued := issued + [id];
    }

    method CreateDialog(ctrl: DialogController, dtype: string, msg: string, buttons: Option<seq<string>>, delay: Option<int>, cb: Callback)
      returns (id: int)
      requires Valid()
      modifies this, ctrl
      ensures Valid() && id == old(itemID) && issued == old(issued) + [id]
      ensures ctrl.State() == Added(old(ctrl.State()), DialogRequest(id, dtype, msg, buttons, delay, cb))
    {
      id := NextId();
      ctrl.AddDialog(id, dtype, msg, buttons, delay, cb);
    }

    method RemoveDialog(ctrl: DialogController, id: int)
      modifies ctrl
      ensures ctrl.State() == DialogRemoved(old(ctrl.State()), id)
    {
      ctrl.RemoveDialog(id);
    }

    method CreateMessage(ctrl: DialogController, dtype: string, msg: string, buttons: Option<seq<string>>, delay: Option<int>, cb: Callback)
      returns (id: int)
      requires Valid()
      modifies this, ctrl
      ensures Valid() && id == old(itemID) && issued == old(issued) + [id]
      ensures ctrl.State() == Added(old(ctrl.State()), MsgRequest(id, dtype, msg, buttons, delay, cb))
    {
      id := NextId();
      ctrl.AddMessage(id, dtype, msg, buttons, delay, cb);
    }

    method RemoveMessage(ctrl: DialogController, id: int)
      modifies ctrl
      ensures ctrl.State() == MessageRemoved(old(ctrl.State()), id)
    {
      ctrl.RemoveMessage(id);
    }

    /** `simpleInfoMessage`, `simpleWarnMessage`, `simpleErrorMessage`: one 'ok' button. */
    method SimpleMessage(ctrl: DialogController, dtype: string, msg: string, delay: Option<int>, cb: Callback)
      returns (id: int)
      requires Valid()
      modifies this, ctrl
      ensures Valid() && id == old(itemID) && issued == old(issued) + [id]
      ensures ctrl.State() == Added(old(ctrl.State()), MsgRequest(id, dtype, msg, Some(["ok"]), delay, cb))
    {
      id := CreateMessage(ctrl, dtype, msg, Some(["ok"]), delay, cb);
    }

    /** `connectionErrorMessage` and `serverErrorMessage`: an error message wrapped in a fixed sentence. */
    method ErrorMessage(ctrl: DialogController, serverSide: bool, msg: string, delay: Option<int>, cb: Callback)
      returns (id: int)
      requires Valid()
      modifies this, ctrl
      ensures Valid() && id == old(itemID) && issued == old(issued) + [id]
      ensures ctrl.State() == Added(old(ctrl.State()), MsgRequest(id, "error", ErrorText(serverSide, msg), Some(["ok"]), delay, cb))
    {
      id := CreateMessage(ctrl, "error", ErrorText(serverSide, msg), Some(["ok"]), delay, cb);
    }

    /** `ackDialog`: one 'ok' button. */
    method AckDialog(ctrl: DialogController, dtype: string, msg: string, delay: Option<int>, cb: Callback)
      returns (id: int)
      requires Valid()
      modifies this, ctrl
      ensures Valid() && id == old(itemID) && issued == old(issued) + [id]
      ensures ctrl.State() == Added(old(ctrl.State()), DialogRequest(id, dtype, msg, Some(["ok"]), delay, cb))
    {
      id := CreateDialog(ctrl, dtype, msg, Some(["ok"]), delay, cb);
    }

    /** `yesNoDialog`: the default answer first, and no count-down. */
    method YesNoDialog(ctrl: DialogController, dtype: string, msg: string, yesIsDefault: bool, cb: Callback)
      returns (id: int)
      requires Valid()
      modifies this, ctrl
      ensures Valid() && id == old(itemID) && issued == old(issued) + [id]
      ensures ctrl.State() == Added(old(ctrl.State()), YesNoRequest(id, dtype, msg, yesIsDefault, cb))
    {
      id := CreateDialog(ctrl, dtype, msg, Some(YesNoButtons(yesIsDefault)), Some(-1), cb);
    }
  }

  function ErrorText(serverSide: bool, msg: string): string {
    (if serverSide then "Server error while " else "Connection error while ") + msg
    + ".  If this problem persists, please contact the site administrator."
  }

  function YesNoButtons(yesIsDefault: bool): seq<string> {
    if yesIsDefault then ["yes", "no"] else ["no", "yes"]
  }

  function YesNoRequest(id: int, dtype: string, msg: string, yesIsDefault: bool, cb: Callback): Item {
    DialogRequest(id, dtype, msg, Some(YesNoButtons(yesIsDefault)), Some(-1), cb)
  }

  /** A yes/no dialog offers both answers, the default first, and waits for one of them. */
  lemma YesNoShape(id: int, dtype: string, msg: string, yesIsDefault: bool, cb: Callback)
    ensures var d := YesNoRequest(id, dtype, msg, yesIsDefault, cb);
      && d.nodelay && d.kind == Dialog
      && |d.buttons| == 2 && d.buttons[0] == (if yesIsDefault then "yes" else "no")
      && d.buttons[1] == (if yesIsDefault then "no" else "yes")
      && AutoChoice(d) == 0
  {
  }
}
