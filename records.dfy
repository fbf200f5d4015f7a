/** The rows the invoice works on (customer and meter-reading records, already
    read and parsed), the errors it raises, and the list helpers both versions
    of the invoice share. */
module Records {
  import opened Calendar

  datatype Option<T> = None | Some(value: T)

  /** The exceptions the invoice code raises. */
  datatype Error =
    | CustomerNotFound(customerId: string)   // ValueError("Customer with id … not found.")
    | DateNotFound(date: Date)               // ValueError("Date … not found.")
    | BareValueError                         // plain `raise ValueError` of a validator half
    | NotSufficientData                      // ValueError("Not sufficient data available")
    | InsufficientDataError                  // the earlier version's own exception
    | IndexError                             // indexing an empty list
    | StopIteration                          // `next(...)` over a generator with no match
    | ZeroDivisionError
    | NoneNotSubscriptable                   // TypeError from `None["value"]`

  datatype Result<T> = Ok(value: T) | Err(error: Error)

  datatype Outcome = Pass | Fail(error: Error)

  /** One row of the customer file; tariffs as the decimals they parse to. */
  datatype Customer = Customer(
    id: string, name: string, street: string, postcode: string, city: string,
    baseTariff: real,    // currency per year
    energyTariff: real)  // cents per unit

  /** One row of the meter-value file: consumption of the interval ending on `date`. */
  datatype Reading = Reading(customer: string, date: Date, value: real)

  /** A `{"date": ..., "value": ...}` entry of a share list. */
  datatype Share = Share(date: Date, value: real)

  /** A Python list the code mutates in place and shares with its caller. */
  class MutableList<T> {
    var items: seq<T>

    constructor (s: seq<T>)
      ensures items == s
    {
      items := s;
    }
  }

  /** `[c for c in rows if c["id"] == id]`. */
  function CustomersWithId(rows: seq<Customer>, id: string): (r: seq<Customer>)
    ensures forall c :: c in r <==> c in rows && c.id == id
    ensures |r| <= |rows|
  {
    if rows == [] then []
    else (if rows[0].id == id then [rows[0]] else []) + CustomersWithId(rows[1..], id)
  }

  /** The index of the first customer row with `id`: the row that
      `get_customer()[0]` is. */
  function FirstCustomerWithId(rows: seq<Customer>, id: string): (r: Option<nat>)
    ensures r.Some? ==> r.value < |rows| && rows[r.value].id == id
    ensures r.Some? ==> forall k :: 0 <= k < r.value ==> rows[k].id != id
    ensures r.None? <==> forall k :: 0 <= k < |rows| ==> rows[k].id != id
  {
    if rows == [] then None
    else if rows[0].id == id then Some(0)
    else match FirstCustomerWithId(rows[1..], id)
      case None => None
      case Some(k) => Some(k + 1)
  }

  /** The head of the filtered list is the first row with the id. */
  lemma {:induction false} CustomersWithIdHead(rows: seq<Customer>, id: string)
    ensures |CustomersWithId(rows, id)| > 0 <==> FirstCustomerWithId(rows, id).Some?
    ensures |CustomersWithId(rows, id)| > 0 ==>
              CustomersWithId(rows, id)[0] == rows[FirstCustomerWithId(rows, id).value]
  {
    if rows != [] && rows[0].id != id {
      CustomersWithIdHead(rows[1..], id);
    }
  }

  /** `[row for row in rows if row["customer"] == id]`. */
  function ReadingsOf(rows: seq<Reading>, id: string): (r: seq<Reading>)
    ensures forall v :: v in r <==> v in rows && v.customer == id
    ensures |r| <= |rows|
  {
    if rows == [] then []
    else (if rows[0].customer == id then [rows[0]] else []) + ReadingsOf(rows[1..], id)
  }

  /** The dates of `rows`, in row order. */
  function DatesOf(rows: seq<Reading>): (r: seq<Date>)
    ensures |r| == |rows|
    ensures forall k :: 0 <= k < |rows| ==> r[k] == rows[k].date
  {
    if rows == [] then []
    else DatesOf(rows[..|rows| - 1]) + [rows[|rows| - 1].date]
  }

  /** Chronological order as `datetime` comparison gives it. */
  predicate SortedByDate(s: seq<Date>) {
    forall i, j :: 0 <= i < j < |s| ==> !Before(s[j], s[i])
  }

  function InsertByDate(d: Date, s: seq<Date>): (r: seq<Date>)
    requires SortedByDate(s)
    ensures SortedByDate(r)
    ensures multiset(r) == multiset(s) + multiset{d}
  {
    if s == [] then [d]
    else if !Before(s[0], d) then [d] + s
    else
      var rest := InsertByDate(d, s[1..]);
      assert s == [s[0]] + s[1..];
      assert forall x | x in rest :: !Before(x, s[0]) by {
        forall x | x in rest ensures !Before(x, s[0]) {
          assert x in multiset(rest);
          if x != d {
            assert x in multiset(s[1..]);
          }
        }
      }
      ConsSorted(s[0], rest);
      [s[0]] + rest
  }

  lemma ConsSorted(x: Date, s: seq<Date>)
    requires SortedByDate(s)
    requires forall y | y in s :: !Before(y, x)
    ensures SortedByDate([x] + s)
  {
    var t := [x] + s;
    forall i, j | 0 <= i < j < |t| ensures !Before(t[j], t[i]) {
      assert t[j] == s[j - 1];
      if i == 0 {
        assert s[j - 1] in s;
      } else {
        assert t[i] == s[i - 1];
      }
    }
  }

  /** `sorted(dates, key=parser.parse)`: the dates in chronological order. */
  function SortByDate(s: seq<Date>): (r: seq<Date>)
    ensures SortedByDate(r)
    ensures multiset(r) == multiset(s)
  {
    if s == [] then []
    else
      assert s == [s[0]] + s[1..];
      InsertByDate(s[0], SortByDate(s[1..]))
  }

  /** `get_sorted_dates`: the dates of the rows, in chronological order. */
  function ChronologicalDates(rows: seq<Reading>): (r: seq<Date>)
    ensures SortedByDate(r)
    ensures multiset(r) == multiset(DatesOf(rows))
  {
    SortByDate(DatesOf(rows))
  }

  /** `d` is the date of a row and no row is dated before it. */
  ghost predicate Earliest(rows: seq<Reading>, d: Date) {
    (exists v :: v in rows && v.date == d) && forall w :: w in rows ==> !Before(w.date, d)
  }

  /** `d` is the date of a row and no row is dated after it. */
  ghost predicate Latest(rows: seq<Reading>, d: Date) {
    (exists v :: v in rows && v.date == d) && forall w :: w in rows ==> !Before(d, w.date)
  }

  /** `Before` orders any two different dates one way or the other. */
  lemma BeforeTotal(a: Date, b: Date)
    ensures a != b ==> Before(a, b) || Before(b, a)
  {
  }

  /** A row date lies somewhere in the sorted list, and every entry of the
      sorted list is the date of some row. */
  lemma ChronologicalMembers(rows: seq<Reading>)
    ensures forall w :: w in rows ==> w.date in ChronologicalDates(rows)
    ensures forall d :: d in ChronologicalDates(rows) ==> exists v :: v in rows && v.date == d
  {
    var s := ChronologicalDates(rows);
    var ds := DatesOf(rows);
    forall w | w in rows ensures w.date in s {
      var k :| 0 <= k < |rows| && rows[k] == w;
      assert ds[k] == w.date;
      assert w.date in multiset(ds);
    }
    forall d | d in s ensures exists v :: v in rows && v.date == d {
      assert d in multiset(s);
      assert d in ds;
      var k :| 0 <= k < |ds| && ds[k] == d;
      assert rows[k] in rows;
    }
  }

  /** The sorted list has as many entries as there are rows; its first entry
      is the earliest row date and its last entry the latest. */
  lemma ChronologicalEnds(rows: seq<Reading>)
    ensures |ChronologicalDates(rows)| == |rows|
    ensures |rows| > 0 ==> Earliest(rows, ChronologicalDates(rows)[0])
    ensures |rows| > 0 ==> Latest(rows, ChronologicalDates(rows)[|rows| - 1])
  {
    var s := ChronologicalDates(rows);
    assert |multiset(s)| == |multiset(DatesOf(rows))|;
    if |rows| > 0 {
      ChronologicalMembers(rows);
      assert s[0] in s && s[|s| - 1] in s;
      forall w | w in rows ensures !Before(w.date, s[0]) && !Before(s[|s| - 1], w.date) {
        var j :| 0 <= j < |s| && s[j] == w.date;
      }
    }
  }

  /** There is only one earliest date and only one latest date. */
  lemma EndsUnique(rows: seq<Reading>, d1: Date, d2: Date)
    ensures Earliest(rows, d1) && Earliest(rows, d2) ==> d1 == d2
    ensures Latest(rows, d1) && Latest(rows, d2) ==> d1 == d2
  {
    BeforeTotal(d1, d2);
  }

  /** The earliest row date is exactly the first entry of the sorted list,
      and the latest exactly its last entry. */
  lemma ChronologicalEndsExact(rows: seq<Reading>)
    ensures |ChronologicalDates(rows)| == |rows|
    ensures |rows| > 0 ==> forall d :: Earliest(rows, d) <==> d == ChronologicalDates(rows)[0]
    ensures |rows| > 0 ==> forall d :: Latest(rows, d) <==> d == ChronologicalDates(rows)[|rows| - 1]
  {
    ChronologicalEnds(rows);
    if |rows| > 0 {
      var s := ChronologicalDates(rows);
      forall d ensures Earliest(rows, d) ==> d == s[0] {
        EndsUnique(rows, d, s[0]);
      }
      forall d ensures Latest(rows, d) ==> d == s[|rows| - 1] {
        EndsUnique(rows, d, s[|rows| - 1]);
      }
    }
  }

  /** Every entry of the sorted list has a reading, so the `next(...)`
      lookup of any sorted date finds one. */
  lemma SortedDatesHaveReadings(rows: seq<Reading>)
    ensures forall d :: d in ChronologicalDates(rows) ==> FirstReadingOn(rows, d).Some?
  {
    ChronologicalMembers(rows);
    forall d | d in ChronologicalDates(rows) ensures FirstReadingOn(rows, d).Some? {
      var v :| v in rows && v.date == d;
      var k :| 0 <= k < |rows| && rows[k] == v;
    }
  }

  /** The index of the first row dated `d`, which the source's
      `next(v for v in rows if parse(v["date"]) == d)` picks. */
  function FirstReadingOn(rows: seq<Reading>, d: Date): (r: Option<nat>)
    ensures r.Some? ==> r.value < |rows| && rows[r.value].date == d
    ensures r.Some? ==> forall k :: 0 <= k < r.value ==> rows[k].date != d
    ensures r.None? <==> forall k :: 0 <= k < |rows| ==> rows[k].date != d
  {
    if rows == [] then None
    else if rows[0].date == d then Some(0)
    else match FirstReadingOn(rows[1..], d)
      case None => None
      case Some(k) => Some(k + 1)
  }
}
