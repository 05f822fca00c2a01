/**
 * The paging arithmetic shared by the query helpers: `offset = (page - 1) *
 * page_size`, `total_pages = (total + page_size - 1) // page_size`, and the
 * page itself as a Python slice.
 */
module Paging {
  import opened PyText

  /** Python's `a // b` for a non-zero `b`: the floor of the quotient. */
  function FloorDiv(a: int, b: int): (q: int)
    requires b != 0
    ensures b > 0 ==> b * q <= a < b * q + b
    ensures b < 0 ==> b * q >= a > b * q + b
  {
    if b > 0 then a / b else (-a) / (-b)
  }

  /** `(total + page_size - 1) // page_size`; a zero page size raises `ZeroDivisionError` in the source. */
  function TotalPages(total: int, size: int): int
    requires size != 0
  {
    FloorDiv(total + size - 1, size)
  }

  /** For a positive page size the page count is the ceiling of `total / page_size`: enough pages, and no empty last page. */
  lemma TotalPagesCeil(total: nat, size: int)
    requires size > 0
    ensures var p := TotalPages(total, size);
      && p >= 0
      && p * size >= total
      && (p == 0 || (p - 1) * size < total)
      && (p == 0 <==> total == 0)
  {
    var p := TotalPages(total, size);
    assert size * p <= total + size - 1 < size * p + size;
    assert (p - 1) * size == p * size - size;
    if p < 0 {
      MulMonotone(p, -1, size);
    }
  }

  lemma MulMonotone(a: int, b: int, c: nat)
    requires a <= b
    ensures a * c <= b * c
  {
    var d: nat := b - a;
    assert b * c == a * c + d * c;
  }

  /** `(page - 1) * page_size`. */
  function Offset(page: int, size: int): int {
    (page - 1) * size
  }

  /** `data[start:start + page_size]` with `start = (page - 1) * page_size`. */
  function PageOf<T>(data: seq<T>, page: int, size: int): (r: seq<T>)
    ensures page >= 1 && size >= 0 ==> |r| <= size
  {
    var start := Offset(page, size);
    assert page >= 1 && size >= 0 ==> start >= 0 by {
      if page >= 1 && size >= 0 {
        assert (page - 1) * size >= 0;
      }
    }
    Slice(data, start, start + size)
  }

  /** Position `r` of page `q + 1` holds element `q * size + r`. */
  lemma PageSlot<T>(data: seq<T>, size: int, q: nat, r: nat)
    requires 0 <= r < size && q * size + r < |data|
    ensures r < |PageOf(data, q + 1, size)|
    ensures PageOf(data, q + 1, size)[r] == data[q * size + r]
  {
    var start := Offset(q + 1, size);
    assert start == q * size;
    var hi := ClampIndex(start + size, |data|);
    assert start + r < hi;
    assert PageOf(data, q + 1, size) == data[start..hi];
  }

  /** A page whose first element exists is within `total_pages`. */
  lemma PageWithinTotal(total: nat, size: int, q: nat)
    requires size > 0 && q * size < total
    ensures q + 1 <= TotalPages(total, size)
  {
    TotalPagesCeil(total, size);
    var p := TotalPages(total, size);
    if p < q + 1 {
      MulMonotone(p, q, size);
    }
  }

  /** With a positive page size every element sits on exactly one page, page `k / size + 1`, at position `k % size`, and that page is within `total_pages`. */
  lemma PageEntry<T>(data: seq<T>, size: int, k: nat)
    requires size > 0 && k < |data|
    ensures var page := k / size + 1;
      && 1 <= page <= TotalPages(|data|, size)
      && k % size < |PageOf(data, page, size)|
      && PageOf(data, page, size)[k % size] == data[k]
  {
    var q, r := k / size, k % size;
    assert k == q * size + r;
    PageSlot(data, size, q, r);
    PageWithinTotal(|data|, size, q);
  }
}
