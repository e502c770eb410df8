/** The highlighted row of a table (`TableState::selected`): `None` or an index that is
    NOT guaranteed to be inside the list. The dashboard replaces its lists on every tick
    without adjusting the index, so a stale index past the end is an ordinary state, and
    every lookup goes through `Selected`, which mirrors `Vec::get` (src/main.rs:148-228,
    477-541). */
module Selection {
  import opened Base

  /** The selection every table starts with (src/main.rs:143-144), and the one a Docker
      view toggle forces (src/main.rs:454). */
  const Initial: Option<nat> := Some(0)

  /** `next_docker_item` / `next_k8s_item` on a list of `len` rows: nothing happens on an
      empty list; otherwise move down one row, wrapping from the last row (or any row past
      it) back to the first, and start at the first row when nothing was selected. */
  function Next(sel: Option<nat>, len: nat): (r: Option<nat>)
    ensures len == 0 ==> r == sel
    ensures len > 0 ==> r.Some? && r.value < len
    ensures len > 0 && sel.Some? && sel.value + 1 < len ==> r == Some(sel.value + 1)
    ensures len > 0 && (sel.None? || sel.value + 1 >= len) ==> r == Some(0)
  {
    if len == 0 then sel
    else match sel
      case None => Some(0)
      case Some(i) => if i >= len - 1 then Some(0) else Some(i + 1)
  }

  /** `previous_docker_item` / `previous_k8s_item`: nothing happens on an empty list;
      otherwise move up one row, wrapping from the first row to the last, and start at the
      first row when nothing was selected. A stale index past the end only moves up by
      one, so it can stay out of range. */
  function Previous(sel: Option<nat>, len: nat): (r: Option<nat>)
    ensures len == 0 ==> r == sel
    ensures len > 0 ==> r.Some?
    ensures len > 0 && sel == Some(0) ==> r == Some(len - 1)
    ensures len > 0 && sel.Some? && sel.value > 0 ==> r == Some(sel.value - 1)
    ensures len > 0 && sel.None? ==> r == Some(0)
  {
    if len == 0 then sel
    else match sel
      case None => Some(0)
      case Some(i) => if i == 0 then Some(len - 1) else Some(i - 1)
  }

  /** `Vec::get(selected)` behind an optional selection: the row under the cursor, if the
      selection is set and still inside the list. */
  function Selected<T>(items: seq<T>, sel: Option<nat>): (r: Option<T>)
    ensures r.Some? <==> sel.Some? && sel.value < |items|
    ensures r.Some? ==> r.value == items[sel.value]
  {
    match sel
    case None => None
    case Some(i) => if i < |items| then Some(items[i]) else None
  }

  /** The selection is inside the list. */
  predicate InRange(sel: Option<nat>, len: nat) {
    sel.Some? && sel.value < len
  }

  /** From a row inside the list, both moves stay inside the list. */
  lemma MovesStayInRange(sel: Option<nat>, len: nat)
    requires InRange(sel, len)
    ensures InRange(Next(sel, len), len) && InRange(Previous(sel, len), len)
  {
  }

  /** Moving down then up, or up then down, returns to the same row. */
  lemma NextPreviousInverse(i: nat, len: nat)
    requires i < len
    ensures Previous(Next(Some(i), len), len) == Some(i)
    ensures Next(Previous(Some(i), len), len) == Some(i)
  {
  }

  /** Moving down `k` times. */
  function NextN(sel: Option<nat>, len: nat, k: nat): Option<nat>
  {
    if k == 0 then sel else Next(NextN(sel, len, k - 1), len)
  }

  /** Moving down cycles through the list: `k` steps from row `i` land on row
      `(i + k) mod len`, so `len` steps return to the starting row. */
  lemma {:induction false} NextCycles(i: nat, len: nat, k: nat)
    requires i < len
    ensures NextN(Some(i), len, k) == Some((i + k) % len)
  {
    if k > 0 {
      NextCycles(i, len, k - 1);
      var j := (i + k - 1) % len;
      if j + 1 < len {
        assert (i + k) % len == j + 1 by {
          ModStep(i + k - 1, len);
        }
      } else {
        assert (i + k) % len == 0 by {
          ModStep(i + k - 1, len);
        }
      }
    }
  }

  lemma ModStep(n: nat, len: nat)
    requires len > 0
    ensures n % len + 1 < len ==> (n + 1) % len == n % len + 1
    ensures n % len + 1 == len ==> (n + 1) % len == 0
  {
    var q, r := n / len, n % len;
    var q', r' := (n + 1) / len, (n + 1) % len;
    var d := q' - q;
    assert d * len == q' * len - q * len;
    assert d * len == r + 1 - r';
    if d >= 1 {
      MulAtLeast(d, len);
    }
    if r + 1 < len {
      assert d == 0;
    } else {
      assert d == 1 || d == 0;
    }
  }

  /** Moving down from a stale index (past the end of a non-empty list) always lands on
      the first row, while moving up from it only decrements it, so it stays stale unless
      it was exactly one past the end. */
  lemma StaleSelectionMoves(i: nat, len: nat)
    requires 0 < len <= i
    ensures Next(Some(i), len) == Some(0)
    ensures Previous(Some(i), len) == Some(i - 1)
    ensures InRange(Previous(Some(i), len), len) <==> i == len
  {
  }
}
