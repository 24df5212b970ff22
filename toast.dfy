/**
 * The notification queue: `showToast` appends a toast under the next number
 * of a counter shared by the whole application, and `removeToast` takes a
 * toast off the list by id. The timers that call `removeToast` are not part
 * of the model; removal is an operation the caller invokes.
 */
module Toast {
  import opened Wrappers
  import opened Lists

  datatype ToastType = Success | Error | Info | Warning

  datatype Toast = Toast(id: int, message: string, kind: ToastType)

  /** The module-level `nextId`, one for every provider. */
  class IdCounter {
    var nextId: int

    constructor()
      ensures nextId == 0
    {
      nextId := 0;
    }
  }

  /** Ids rise strictly from the front of the list to the back. */
  predicate IdsIncreasing(toasts: seq<Toast>) {
    forall a, b | 0 <= a < b < |toasts| :: toasts[a].id < toasts[b].id
  }

  /** `removeToast` as a value: every toast with another id, in order. */
  function Removed(toasts: seq<Toast>, id: int): (r: seq<Toast>)
    ensures forall t | t in r :: t in toasts && t.id != id
    ensures (forall t | t in toasts :: t.id != id) ==> r == toasts
  {
    Filter(toasts, (t: Toast) => t.id != id)
  }

  /** Removing takes away exactly the toasts with the id. */
  lemma RemovedExactly(toasts: seq<Toast>, id: int, t: Toast)
    ensures multiset(Removed(toasts, id))[t] == if t.id == id then 0 else multiset(toasts)[t]
  {
    FilterCount(toasts, (u: Toast) => u.id != id, t);
  }

  /** What remains after a removal keeps its order. */
  lemma {:induction false} RemovedKeepsOrder(toasts: seq<Toast>, id: int)
    requires IdsIncreasing(toasts)
    ensures IdsIncreasing(Removed(toasts, id))
  {
    if toasts != [] {
      var init, last := toasts[..|toasts| - 1], toasts[|toasts| - 1];
      RemovedKeepsOrder(init, id);
      var r := Removed(init, id);
      assert Removed(toasts, id) == r + (if last.id != id then [last] else []);
      if last.id != id {
        forall t | t in r ensures t.id < last.id {
          var k :| 0 <= k < |init| && init[k] == t;
          assert toasts[k] == t;
        }
        AppendKeepsIncreasing(r, last);
      }
    }
  }

  lemma AppendKeepsIncreasing(toasts: seq<Toast>, last: Toast)
    requires IdsIncreasing(toasts) && forall t | t in toasts :: t.id < last.id
    ensures IdsIncreasing(toasts + [last])
  {
    var s := toasts + [last];
    forall a, b | 0 <= a < b < |s| ensures s[a].id < s[b].id {
      assert s[a] == toasts[a];
      if b < |toasts| {
        assert s[b] == toasts[b];
      } else {
        assert toasts[a] in toasts;
      }
    }
  }

  /** A toast shown and then removed leaves the list as it was before. */
  lemma ShowThenRemove(toasts: seq<Toast>, id: int, message: string, kind: ToastType)
    requires forall t | t in toasts :: t.id < id
    ensures Removed(toasts + [Toast(id, message, kind)], id) == toasts
  {
    FilterAppend(toasts, [Toast(id, message, kind)], (t: Toast) => t.id != id);
    assert Filter(toasts, (t: Toast) => t.id != id) == toasts;
    assert Filter([Toast(id, message, kind)], (t: Toast) => t.id != id) == [];
  }

  /** The provider's list of toasts and the shared counter it draws ids from. */
  class ToastProvider {
    var toasts: seq<Toast>
    const counter: IdCounter

    /** Ids are increasing and every id already drawn from the counter. */
    ghost predicate Valid()
      reads this, counter
    {
      IdsIncreasing(toasts) && forall t | t in toasts :: t.id < counter.nextId
    }

    constructor(counter: IdCounter)
      ensures this.counter == counter && toasts == [] && Valid()
    {
      this.counter := counter;
      toasts := [];
    }

    /**
     * `showToast`: the toast takes the counter's number, which then moves
     * on, and joins the end of the list; with no type given it is `Info`.
     */
    method ShowToast(message: string, kind: Option<ToastType>) returns (id: int)
      requires Valid()
      modifies this, counter
      ensures Valid()
      ensures id == old(counter.nextId) && counter.nextId == id + 1
      ensures toasts == old(toasts) + [Toast(id, message, kind.GetOr(Info))]
      ensures forall t | t in old(toasts) :: t.id < id
    {
      id := counter.nextId;
      counter.nextId := counter.nextId + 1;
      toasts := toasts + [Toast(id, message, kind.GetOr(Info))];
    }

    /** `removeToast`: the toasts with the id leave; an unknown id changes nothing. */
    method RemoveToast(id: int)
      requires Valid()
      modifies this
      ensures Valid()
      ensures toasts == Removed(old(toasts), id)
    {
      RemovedKeepsOrder(toasts, id);
      toasts := Removed(toasts, id);
    }
  }
}
