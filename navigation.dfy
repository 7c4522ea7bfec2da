/**
 The one-at-a-time presentation helper, `present(item:content:)` in
 ObservationUIKit/Navigation.swift.

 Each view controller keeps an optional slot for the child it presented. When
 an item appears and the slot is empty, the helper builds a child with the
 caller's factory, remembers it and presents it; when the item disappears and
 the slot is filled, it dismisses the remembered child and empties the slot.
 Every other combination does nothing. The UIKit calls are recorded as events
 on abstract controller identities `C`.
 */
module Navigation {
  import opened Wrappers

  /** A call the helper makes: the factory building a child, `present` of it, or `dismiss` on it. */
  datatype Event<C> = Built(child: C) | Presented(child: C) | Dismissed(child: C)

  /** What one call of the helper leaves behind: the new slot and the calls it made, in order. */
  datatype Effect<C> = Effect(slot: Option<C>, events: seq<Event<C>>)

  /** One call of `present(item:content:)` on a controller whose slot holds `slot`. */
  function PresentStep<Item, C>(slot: Option<C>, item: Option<Item>, content: Item -> C): (r: Effect<C>)
    // an item with nothing presented: the factory is called once and its child stored and presented
    ensures item.Some? && slot.None? ==>
      r == Effect(Some(content(item.value)), [Built(content(item.value)), Presented(content(item.value))])
    // an item while a child is presented: nothing happens, the child is not replaced
    ensures item.Some? && slot.Some? ==> r == Effect(slot, [])
    // no item while a child is presented: exactly that child is dismissed and forgotten
    ensures item.None? && slot.Some? ==> r == Effect(None, [Dismissed(slot.value)])
    // no item and nothing presented: nothing happens
    ensures item.None? && slot.None? ==> r == Effect(slot, [])
  {
    if item.Some? && slot.None? then
      var controller := content(item.value);
      Effect(Some(controller), [Built(controller), Presented(controller)])
    else if item.None? && slot.Some? then
      Effect(None, [Dismissed(slot.value)])
    else
      Effect(slot, [])
  }

  /** After any call, a child is presented exactly when the item passed was present. */
  lemma PresentSlotTracksItem<Item, C>(slot: Option<C>, item: Option<Item>, content: Item -> C)
    ensures PresentStep(slot, item, content).slot.Some? <==> item.Some?
  {
  }

  /** Calling again with an item of the same presence changes nothing and makes no UIKit call. */
  lemma PresentIdempotent<Item, C>(slot: Option<C>, item: Option<Item>, again: Option<Item>, content: Item -> C)
    requires item.Some? <==> again.Some?
    ensures var first := PresentStep(slot, item, content);
            PresentStep(first.slot, again, content) == Effect(first.slot, [])
  {
  }

  /** A sequence of calls, one per item, starting from `slot`: the final slot and every call made. */
  function Drive<Item, C>(slot: Option<C>, items: seq<Option<Item>>, content: Item -> C): (r: Effect<C>)
    ensures items == [] ==> r == Effect(slot, [])
    ensures items != [] ==> (r.slot.Some? <==> items[|items| - 1].Some?)
    decreases |items|
  {
    if items == [] then Effect(slot, [])
    else
      var first := PresentStep(slot, items[0], content);
      var rest := Drive(first.slot, items[1..], content);
      Effect(rest.slot, first.events + rest.events)
  }

  /**
   The one-at-a-time discipline, as an independent reading of a call log:
   a child may be built or presented only while none is live, and only the
   live child may be dismissed. `None` when the log breaks the discipline,
   otherwise the child live at the end.
   */
  ghost function ReplayEvent<C>(live: Option<C>, e: Event<C>): Option<Option<C>>
  {
    match e
    case Built(_) => if live.None? then Some(live) else None
    case Presented(child) => if live.None? then Some(Some(child)) else None
    case Dismissed(child) => if live == Some(child) then Some(None) else None
  }

  ghost function Replay<C>(live: Option<C>, log: seq<Event<C>>): Option<Option<C>>
    decreases |log|
  {
    if log == [] then Some(live)
    else
      match ReplayEvent(live, log[0])
      case None => None
      case Some(next) => Replay(next, log[1..])
  }

  /** Replaying two logs one after the other is replaying their concatenation. */
  lemma {:induction false} ReplayAppend<C>(live: Option<C>, a: seq<Event<C>>, b: seq<Event<C>>)
    ensures Replay(live, a + b) ==
      match Replay(live, a)
      case None => None
      case Some(after) => Replay(after, b)
    decreases |a|
  {
    if a == [] {
      assert a + b == b;
    } else {
      assert a + b != [];
      assert (a + b)[0] == a[0];
      assert (a + b)[1..] == a[1..] + b;
      match ReplayEvent(live, a[0])
      case None =>
      case Some(next) =>
        ReplayAppend(next, a[1..], b);
    }
  }

  /** One call keeps the discipline and leaves live exactly the child in the slot. */
  lemma PresentStepKeepsDiscipline<Item, C>(slot: Option<C>, item: Option<Item>, content: Item -> C)
    ensures var e := PresentStep(slot, item, content); Replay(slot, e.events) == Some(e.slot)
  {
    var e := PresentStep(slot, item, content);
    if item.Some? && slot.None? {
      var child := content(item.value);
      assert e.events[1..] == [Presented(child)];
      assert e.events[1..][1..] == [];
      assert Replay(Some(child), []) == Some(Some(child));
      assert Replay(None, [Presented(child)]) == Some(Some(child));
    } else if item.None? && slot.Some? {
      assert e.events[1..] == [];
      assert Replay<C>(None, []) == Some(None);
    }
  }

  /**
   However the items come and go, the helper never has two children live at
   once, never dismisses anything but the live child, and the slot always
   names the child left live by its calls.
   */
  lemma {:induction false} DriveKeepsDiscipline<Item, C>(slot: Option<C>, items: seq<Option<Item>>, content: Item -> C)
    ensures var r := Drive(slot, items, content); Replay(slot, r.events) == Some(r.slot)
    decreases |items|
  {
    if items != [] {
      var first := PresentStep(slot, items[0], content);
      var rest := Drive(first.slot, items[1..], content);
      PresentStepKeepsDiscipline(slot, items[0], content);
      DriveKeepsDiscipline(first.slot, items[1..], content);
      ReplayAppend(slot, first.events, rest.events);
    }
  }

  /** A view controller, with the slot for the child it presented and the log of presentation calls it made. */
  class ViewController {
    var presented: Option<ViewController>
    var log: seq<Event<ViewController>>

    /** The slot names the child the logged calls left live, and the calls kept the discipline. */
    ghost predicate Valid()
      reads this
    {
      Replay(None, log) == Some(presented)
    }

    constructor ()
      ensures Valid()
      ensures presented == None && log == []
    {
      presented := None;
      log := [];
    }

    /** `present(item:content:)`. */
    method Present<Item>(item: Option<Item>, content: Item -> ViewController)
      requires Valid()
      modifies this
      ensures Valid()
      ensures var e := PresentStep(old(presented), item, content);
              presented == e.slot && log == old(log) + e.events
    {
      ghost var before := log;
      ghost var slot := presented;
      if item.Some? && presented.None? {
        var controller := content(item.value);
        log := log + [Built(controller)];
        presented := Some(controller);
        log := log + [Presented(controller)];
      } else if item.None? && presented.Some? {
        var controller := presented.value;
        log := log + [Dismissed(controller)];
        presented := None;
      }
      ghost var e := PresentStep(slot, item, content);
      assert log == before + e.events;
      PresentStepKeepsDiscipline(slot, item, content);
      ReplayAppend(None, before, e.events);
    }
  }
}
