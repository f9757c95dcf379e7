/**
 * The FAQ accordion of js/main.js (`initFaqAccordion`). Each `.faq__item`
 * carries an `active` class; `active[i]` says whether item `i` has it.
 * A click on the question of item `k` closes every other open item and
 * then toggles item `k`.
 */
module FaqAccordion {
  import opened Flags

  /** Every item is closed. */
  predicate AllClosed(active: seq<bool>) {
    forall i :: 0 <= i < |active| ==> !active[i]
  }

  /** What the loop over the other items leaves: each of them closed, item `k` as it was. */
  function CloseOthers(active: seq<bool>, k: nat): (r: seq<bool>)
    ensures |r| == |active| && AtMostOne(r)
    ensures forall i :: 0 <= i < |r| && i != k ==> !r[i]
    ensures k < |active| ==> r[k] == active[k]
  {
    seq(|active|, i requires 0 <= i < |active| => i == k && active[i])
  }

  /**
   * The items after a click on item `k`: every other item is closed, and
   * item `k` is open exactly when it was closed before the click.
   */
  function AfterClick(active: seq<bool>, k: nat): (r: seq<bool>)
    requires k < |active|
    ensures |r| == |active|
    ensures forall i :: 0 <= i < |r| && i != k ==> !r[i]
    ensures r[k] <==> !active[k]
    ensures AtMostOne(r)
  {
    CloseOthers(active, k)[k := !active[k]]
  }

  /** The click handler, on the items' `active` flags in place. */
  method Click(active: array<bool>, k: nat)
    requires k < active.Length
    modifies active
    ensures active[..] == AfterClick(old(active[..]), k)
  {
    var isOpen := active[k];
    var j := 0;
    while j < active.Length
      invariant 0 <= j <= active.Length
      invariant forall i :: 0 <= i < j ==> active[i] == (i == k && old(active[i]))
      invariant forall i :: j <= i < active.Length ==> active[i] == old(active[i])
    {
      if j != k && active[j] {
        active[j] := false;
      }
      j := j + 1;
    }
    if isOpen {
      active[k] := false;
    } else {
      active[k] := true;
    }
  }

  /** Clicking the same item twice closes every other item and leaves that item as it was. */
  lemma {:induction false} ClickTwice(active: seq<bool>, k: nat)
    requires k < |active|
    ensures AfterClick(AfterClick(active, k), k) == CloseOthers(active, k)
  {
    var r := AfterClick(AfterClick(active, k), k);
    assert forall i :: 0 <= i < |r| ==> r[i] == CloseOthers(active, k)[i];
  }

  /** From an all-closed accordion, two clicks on the same item close it again. */
  lemma {:induction false} ClickTwiceFromClosed(active: seq<bool>, k: nat)
    requires k < |active| && AllClosed(active)
    ensures AfterClick(AfterClick(active, k), k) == active
  {
    ClickTwice(active, k);
    assert forall i :: 0 <= i < |active| ==> CloseOthers(active, k)[i] == active[i];
  }

  /** Clicking another item while one is open moves the open item: afterwards only the new one is open. */
  lemma {:induction false} ClickAnother(active: seq<bool>, k: nat, j: nat)
    requires k < |active| && j < |active| && j != k
    ensures forall i :: 0 <= i < |active| ==> (AfterClick(AfterClick(active, k), j)[i] <==> i == j)
  {
    var once := AfterClick(active, k);
    assert !once[j];
  }
}
