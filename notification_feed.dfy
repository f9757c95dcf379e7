/**
 * The live notification feed of js/main.js (`initIndustriesAnimatedList`):
 * entries from a fixed catalogue are inserted at the top of the list, and
 * once the list holds more than five entries its bottom entry is removed.
 */
module NotificationFeed {

  /** One catalogue entry (its icon is not part of this model). */
  datatype Notification = Notification(name: string, description: string, color: string, time: string)

  /** The `notifications` array, in source order. */
  const Catalog: seq<Notification> := [
    Notification("Restaurant booked", "Table for 4 confirmed", "#00C9A7", "Just now"),
    Notification("Appointment set", "Haircut & styling", "#FFB800", "2m ago"),
    Notification("New member joined", "Gym membership activated", "#FF3D71", "5m ago"),
    Notification("Invoice sent", "Consulting services", "#1E86FF", "8m ago"),
    Notification("Staff scheduled", "Weekend shift covered", "#9B59B6", "12m ago"),
    Notification("Inventory alert", "Reorder supplies", "#E67E22", "15m ago"),
    Notification("Payment received", "Client subscription", "#27AE60", "18m ago"),
    Notification("Class reminder", "Yoga starts in 1 hour", "#3498DB", "20m ago")
  ]

  /** `notifications[index % notifications.length]` */
  function Entry(index: nat): (r: Notification)
    ensures r in Catalog
  {
    Catalog[index % |Catalog|]
  }

  /** The catalogue repeats: an index and the index eight further on show the same entry. */
  lemma {:induction false} EntryCycles(index: nat)
    ensures Entry(index + |Catalog|) == Entry(index)
  {
    assert (index + |Catalog|) % |Catalog| == index % |Catalog|;
  }

  /** The number of entries above which the bottom one is removed. */
  const MaxShown := 5

  /**
   * The list, top first, after `addNotification` inserts `data`: `data` on
   * top, the old entries below it, and the bottom entry dropped when that
   * makes more than five.
   */
  function Added(items: seq<Notification>, data: Notification): (r: seq<Notification>)
    ensures r != [] && r[0] == data
    ensures r[1..] <= items
    ensures |r| == if |items| < MaxShown then |items| + 1 else |items|
  {
    var shown := [data] + items;
    if |shown| > MaxShown then shown[..|shown| - 1] else shown
  }

  /** A list of at most five entries keeps at most five. */
  lemma {:induction false} AddedKeepsBound(items: seq<Notification>, data: Notification)
    requires |items| <= MaxShown
    ensures |Added(items, data)| <= MaxShown
  {
  }

  /** The list after `entry(0), entry(1), …, entry(n - 1)` are added to an empty list, in that order. */
  function AddedInOrder(entry: nat -> Notification, n: nat): seq<Notification> {
    if n == 0 then [] else Added(AddedInOrder(entry, n - 1), entry(n - 1))
  }

  /**
   * After `n` additions the list shows the last `min(n, 5)` of them, newest
   * on top: position `j` holds the entry added by the `n - j`-th addition.
   */
  lemma {:induction false} AddedInOrderShowsLatest(entry: nat -> Notification, n: nat)
    ensures |AddedInOrder(entry, n)| == if n < MaxShown then n else MaxShown
    ensures forall j :: 0 <= j < |AddedInOrder(entry, n)| ==> AddedInOrder(entry, n)[j] == entry(n - 1 - j)
  {
    AddedInOrderLength(entry, n);
    forall j | 0 <= j < |AddedInOrder(entry, n)|
      ensures AddedInOrder(entry, n)[j] == entry(n - 1 - j)
    {
      AddedInOrderAt(entry, n, j);
    }
  }

  /** The list grows by one per addition until it holds five entries. */
  lemma {:induction false} AddedInOrderLength(entry: nat -> Notification, n: nat)
    ensures |AddedInOrder(entry, n)| == if n < MaxShown then n else MaxShown
  {
    if n > 0 {
      AddedInOrderLength(entry, n - 1);
    }
  }

  /** Position `j` of the list holds the entry of the `n - j`-th addition. */
  lemma {:induction false} AddedInOrderAt(entry: nat -> Notification, n: nat, j: nat)
    requires j < |AddedInOrder(entry, n)|
    ensures j < n && AddedInOrder(entry, n)[j] == entry(n - 1 - j)
  {
    var before := AddedInOrder(entry, n - 1);
    if j > 0 {
      AddedShifts(before, entry(n - 1), j);
      AddedInOrderAt(entry, n - 1, j - 1);
    }
  }

  /** Below the new top entry, `Added` shows the old entries one position lower. */
  lemma {:induction false} AddedShifts(items: seq<Notification>, data: Notification, j: nat)
    requires 0 < j < |Added(items, data)|
    ensures Added(items, data)[j] == items[j - 1]
  {
  }

  /**
   * The animation calls `addNotification(0)`, `addNotification(1)`, … on an
   * empty list; after `n` calls position `j` shows catalogue entry
   * `(n - 1 - j) % 8`, and at most five entries are shown.
   */
  lemma {:induction false} AnimationShowsLatest(n: nat)
    ensures |AddedInOrder(Entry, n)| == if n < MaxShown then n else MaxShown
    ensures forall j :: 0 <= j < |AddedInOrder(Entry, n)| ==>
      AddedInOrder(Entry, n)[j] == Entry(n - 1 - j)
  {
    AddedInOrderShowsLatest(Entry, n);
  }

  /** The list element, with the entries it shows top first. */
  class Feed {
    var items: seq<Notification>

    /** The list as loaded: the entries the page markup puts in it, `initial`; the script adds none at load. */
    constructor(initial: seq<Notification>)
      ensures items == initial
    {
      items := initial;
    }

    /** `addNotification(index)`, with the removal of the bottom entry taking effect at once. */
    method Add(index: nat)
      modifies this
      ensures items == Added(old(items), Entry(index))
    {
      var data := Entry(index);
      items := [data] + items;
      if |items| > MaxShown {
        items := items[..|items| - 1];
      }
    }
  }
}
