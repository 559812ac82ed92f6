/** The toast list of shared/ui/toast.tsx: at most three messages on screen,
    newest last, each with an optional auto-dismiss timer. A timer is kept as
    the delay it was set with; which browser handle it has is not modelled. */
module Toast {
  import opened Common

  datatype ToastVariant = Info | Success | Warning | Error

  datatype ToastOptions = ToastOptions(id: Option<string>, variant: Option<ToastVariant>, duration: Option<int>)

  datatype ToastItem = ToastItem(id: string, message: string, variant: ToastVariant, duration: int)

  const DefaultDuration: int := 3000
  const MaxToasts: nat := 3

  predicate HasId(t: ToastItem, id: string)
  {
    t.id == id
  }

  function WithoutId(toasts: seq<ToastItem>, id: string): (r: seq<ToastItem>)
    ensures forall i :: 0 <= i < |r| ==> r[i].id != id
  {
    var r := Filter(toasts, t => !HasId(t, id));
    assert forall i :: 0 <= i < |r| ==> r[i] in r;
    r
  }

  /** Dismissing an id removes exactly its entries and keeps the others in
      their order. */
  lemma WithoutIdSpec(toasts: seq<ToastItem>, id: string)
    ensures forall t :: t in WithoutId(toasts, id) <==> t in toasts && t.id != id
    ensures WithoutId(toasts, id) == toasts <==> forall i :: 0 <= i < |toasts| ==> toasts[i].id != id
  {
    var r := WithoutId(toasts, id);
    if forall i :: 0 <= i < |toasts| ==> toasts[i].id != id {
      FilterAll(toasts, t => !HasId(t, id));
    } else {
      var i :| 0 <= i < |toasts| && toasts[i].id == id;
      assert toasts[i] in toasts && toasts[i] !in r;
    }
  }

  /** The list after `toast`: drop the entries with the new id, append the new
      one, and keep only the newest three. */
  function Added(prev: seq<ToastItem>, item: ToastItem): seq<ToastItem>
  {
    var next := WithoutId(prev, item.id) + [item];
    if |next| > MaxToasts then next[|next| - MaxToasts..] else next
  }

  /** The entries `toast` pushes off the front. */
  function Overflow(prev: seq<ToastItem>, item: ToastItem): seq<ToastItem>
  {
    var next := WithoutId(prev, item.id) + [item];
    if |next| > MaxToasts then next[..|next| - MaxToasts] else []
  }

  /** The new entry is last and the only one with its id; at most three
      remain; the others are the newest of the earlier entries with another
      id, in their old order, and the dropped ones are the oldest. */
  lemma AddedSpec(prev: seq<ToastItem>, item: ToastItem)
    ensures var r := Added(prev, item);
      var kept := WithoutId(prev, item.id);
      && 1 <= |r| <= MaxToasts
      && r[|r| - 1] == item
      && (forall i :: 0 <= i < |r| - 1 ==> r[i].id != item.id)
      && Overflow(prev, item) + r == kept + [item]
      && (|kept| < MaxToasts ==> r == kept + [item] && Overflow(prev, item) == [])
  {
    var kept := WithoutId(prev, item.id);
    var next := kept + [item];
    var r := Added(prev, item);
    if |next| > MaxToasts {
      assert Overflow(prev, item) + r == next[..|next| - MaxToasts] + next[|next| - MaxToasts..];
      forall i | 0 <= i < |r| - 1
        ensures r[i].id != item.id
      {
        assert r[i] == kept[|next| - MaxToasts + i];
      }
    } else {
      forall i | 0 <= i < |r| - 1
        ensures r[i].id != item.id
      {
        assert r[i] == kept[i];
      }
    }
  }

  /** The ids of a list with unique ids stay unique after `toast`. */
  lemma AddedKeepsIdsUnique(prev: seq<ToastItem>, item: ToastItem)
    requires forall i, j :: 0 <= i < j < |prev| ==> prev[i].id != prev[j].id
    ensures var r := Added(prev, item);
      forall i, j :: 0 <= i < j < |r| ==> r[i].id != r[j].id
  {
    var kept := WithoutId(prev, item.id);
    WithoutIdKeepsIdsUnique(prev, item.id);
    var next := kept + [item];
    assert forall i, j :: 0 <= i < j < |next| ==> next[i].id != next[j].id;
    var r := Added(prev, item);
    if |next| > MaxToasts {
      var d := |next| - MaxToasts;
      forall i, j | 0 <= i < j < |r|
        ensures r[i].id != r[j].id
      {
        assert r[i] == next[d + i] && r[j] == next[d + j];
      }
    }
  }

  /** Removing the entries with one id keeps the others' ids distinct. */
  lemma {:induction false} WithoutIdKeepsIdsUnique(prev: seq<ToastItem>, id: string)
    requires forall i, j :: 0 <= i < j < |prev| ==> prev[i].id != prev[j].id
    ensures var r := WithoutId(prev, id);
      forall i, j :: 0 <= i < j < |r| ==> r[i].id != r[j].id
  {
    if prev != [] {
      var rest := WithoutId(prev[1..], id);
      WithoutIdKeepsIdsUnique(prev[1..], id);
      assert forall i, j :: 0 <= i < j < |prev[1..]| ==> prev[1..][i].id != prev[1..][j].id;
      if prev[0].id != id {
        assert WithoutId(prev, id) == [prev[0]] + rest;
        forall j | 0 <= j < |rest|
          ensures prev[0].id != rest[j].id
        {
          assert rest[j] in prev[1..];
        }
      }
    }
  }

  class ToastProvider {
    var toasts: seq<ToastItem>
    /** `timersRef`: the ids with a pending auto-dismiss, and its delay. */
    var timers: map<string, int>

    constructor ()
      ensures toasts == [] && timers == map[]
    {
      toasts := [];
      timers := map[];
    }

    /** `dismiss`: drop the entries with this id and cancel its timer. */
    method Dismiss(id: string)
      modifies this
      ensures toasts == WithoutId(old(toasts), id)
      ensures timers == old(timers) - {id}
    {
      toasts := WithoutId(toasts, id);
      if id in timers {
        timers := timers - {id};
      }
    }

    /** `clear`: no toast and no timer is left. */
    method Clear()
      modifies this
      ensures toasts == [] && timers == map[]
    {
      toasts := [];
      timers := map[];
    }

    /** `scheduleDismiss`: a positive duration (re)arms the id's timer; any
        other leaves the timers as they are. */
    method ScheduleDismiss(id: string, duration: int)
      modifies this`timers
      ensures timers == if duration <= 0 then old(timers) else old(timers)[id := duration]
    {
      if duration <= 0 {
        return;
      }
      timers := timers[id := duration];
    }

    /** `toast`: show a message, by default an info toast for 3 seconds, with
        the caller's id or `freshId`; overflowed entries lose their timers. */
    method Show(message: string, options: ToastOptions, freshId: string) returns (id: string)
      modifies this
      ensures id == if options.id.Some? then options.id.value else freshId
      ensures var item := ToastItem(id, message,
                                    if options.variant.Some? then options.variant.value else Info,
                                    if options.duration.Some? then options.duration.value else DefaultDuration);
        && toasts == Added(old(toasts), item)
        && var cleared := old(timers) - (set t | t in Overflow(old(toasts), item) :: t.id);
           timers == if item.duration <= 0 then cleared else cleared[id := item.duration]
    {
      id := if options.id.Some? then options.id.value else freshId;
      var variant := if options.variant.Some? then options.variant.value else Info;
      var duration := if options.duration.Some? then options.duration.value else DefaultDuration;
      var item := ToastItem(id, message, variant, duration);
      var overflow := Overflow(toasts, item);
      timers := timers - (set t | t in overflow :: t.id);
      toasts := Added(toasts, item);
      ScheduleDismiss(id, duration);
    }

    /** A timer fires: its toast is dismissed. */
    method TimerFires(id: string)
      requires id in timers
      modifies this
      ensures toasts == WithoutId(old(toasts), id)
      ensures timers == old(timers) - {id}
    {
      Dismiss(id);
    }
  }
}
