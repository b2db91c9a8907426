/** The read side of the backend: the listing of GET /customers (the LEFT JOIN with COUNT and
    GROUP_CONCAT, then the case-insensitive search in Python) and the address gathering of
    GET /customers/<id>, as functions of the two tables. */
module CustomerQuery {
  import opened Wrappers
  import opened Table
  import opened Schema

  // ---- Python's str.lower() on ASCII text and the `in` operator on strings ----

  function LowerChar(c: char): (r: char)
    ensures 'A' <= c <= 'Z' ==> 'a' <= r <= 'z' && r as int - 'a' as int == c as int - 'A' as int
    ensures !('A' <= c <= 'Z') ==> r == c
  {
    if 'A' <= c <= 'Z' then (c as int + 32) as char else c
  }

  function Lower(s: string): (r: string)
    ensures |r| == |s|
    ensures forall i :: 0 <= i < |s| ==> r[i] == LowerChar(s[i])
    ensures forall i :: 0 <= i < |r| ==> !('A' <= r[i] <= 'Z')
  {
    seq(|s|, i requires 0 <= i < |s| => LowerChar(s[i]))
  }

  /** Lowercasing twice is lowercasing once. */
  lemma LowerIdempotent(s: string)
    ensures Lower(Lower(s)) == Lower(s)
  {
    assert forall i :: 0 <= i < |s| ==> Lower(Lower(s))[i] == Lower(s)[i];
  }

  lemma LowerAppend(a: string, b: string)
    ensures Lower(a + b) == Lower(a) + Lower(b)
  {
    assert forall i :: 0 <= i < |a + b| ==> Lower(a + b)[i] == (Lower(a) + Lower(b))[i];
  }

  /** `q` occurs in `s` from its first position on. */
  predicate StartsWith(s: string, q: string)
  {
    |q| <= |s| && s[..|q|] == q
  }

  /** Python's `q in s` for strings: `q` occurs somewhere in `s`. */
  predicate Contains(s: string, q: string)
    decreases |s|
  {
    StartsWith(s, q) || (s != [] && Contains(s[1..], q))
  }

  /** `q` occurs in `s` at position `k`. */
  predicate OccursAt(s: string, q: string, k: int)
  {
    0 <= k <= |s| - |q| && s[k..k + |q|] == q
  }

  /** `Contains` finds exactly the substrings of `s`: the slices at some position. */
  lemma {:induction false} ContainsIff(s: string, q: string)
    ensures Contains(s, q) <==> exists k :: OccursAt(s, q, k)
    decreases |s|
  {
    if StartsWith(s, q) {
      assert OccursAt(s, q, 0);
    }
    if s != [] {
      ContainsIff(s[1..], q);
      if Contains(s[1..], q) {
        var k :| OccursAt(s[1..], q, k);
        assert s[k + 1..k + 1 + |q|] == s[1..][k..k + |q|];
        assert OccursAt(s, q, k + 1);
      }
      if k :| OccursAt(s, q, k) {
        if k > 0 {
          assert s[1..][k - 1..k - 1 + |q|] == s[k..k + |q|];
          assert OccursAt(s[1..], q, k - 1);
        }
      }
    } else {
      if k :| OccursAt(s, q, k) { assert |q| == 0 && s[..|q|] == q; }
    }
  }

  /** A string that contains `q` still does when text is put before and after it. */
  lemma ContainsInside(a: string, b: string, c: string, q: string)
    requires Contains(b, q)
    ensures Contains(a + b + c, q)
  {
    ContainsIff(b, q);
    var k :| OccursAt(b, q, k);
    assert (a + b + c)[|a| + k..|a| + k + |q|] == b[k..k + |q|];
    assert OccursAt(a + b + c, q, |a| + k);
    ContainsIff(a + b + c, q);
  }

  // ---- GROUP_CONCAT ----

  /** The elements of `xs` separated by `sep`. */
  function Join(xs: seq<string>, sep: string): string
  {
    if |xs| == 0 then "" else if |xs| == 1 then xs[0] else xs[0] + sep + Join(xs[1..], sep)
  }

  /** Every element sits in the joined text between some prefix and some suffix. */
  lemma {:induction false} JoinSplit(xs: seq<string>, sep: string, j: nat) returns (before: string, after: string)
    requires j < |xs|
    ensures Join(xs, sep) == before + xs[j] + after
  {
    if |xs| == 1 {
      before, after := "", "";
    } else if j == 0 {
      before, after := "", sep + Join(xs[1..], sep);
    } else {
      var b, a := JoinSplit(xs[1..], sep, j - 1);
      before, after := xs[0] + sep + b, a;
    }
  }

  /** GROUP_CONCAT(column) with MySQL's default separator: NULL over no rows. */
  function GroupConcat(values: seq<string>): (r: Option<string>)
    ensures r.None? <==> values == []
  {
    if values == [] then None else Some(Join(values, ","))
  }

  function Cities(addrs: seq<Address>): (r: seq<string>)
    ensures |r| == |addrs| && forall i :: 0 <= i < |addrs| ==> r[i] == addrs[i].data.city
  {
    seq(|addrs|, i requires 0 <= i < |addrs| => addrs[i].data.city)
  }

  function States(addrs: seq<Address>): (r: seq<string>)
    ensures |r| == |addrs| && forall i :: 0 <= i < |addrs| ==> r[i] == addrs[i].data.state
  {
    seq(|addrs|, i requires 0 <= i < |addrs| => addrs[i].data.state)
  }

  function PinCodes(addrs: seq<Address>): (r: seq<string>)
    ensures |r| == |addrs| && forall i :: 0 <= i < |addrs| ==> r[i] == addrs[i].data.pinCode
  {
    seq(|addrs|, i requires 0 <= i < |addrs| => addrs[i].data.pinCode)
  }

  // ---- the join ----

  /** SELECT * FROM addresses WHERE customer_id = %s: the customer's addresses in table order. */
  function AddressesOf(addrs: seq<Address>, customerId: int): (r: seq<Address>)
    ensures forall i :: 0 <= i < |r| ==> r[i] in addrs && r[i].data.customerId == customerId
    ensures forall i :: 0 <= i < |addrs| && addrs[i].data.customerId == customerId ==> addrs[i] in r
    ensures SubsequenceOf(r, addrs)
    ensures (forall i :: 0 <= i < |addrs| ==> addrs[i].data.customerId == customerId) ==> r == addrs
  {
    var mine := (a: Address) => a.data.customerId == customerId;
    if forall i :: 0 <= i < |addrs| ==> addrs[i].data.customerId == customerId then
      KeepAll(addrs, mine);
      Keep(addrs, mine)
    else
      Keep(addrs, mine)
  }

  /** COUNT(a.address_id) over LEFT JOIN addresses a ON c.customer_id = a.customer_id. */
  function AddressCount(addrs: seq<Address>, customerId: int): (n: nat)
    ensures n == |AddressesOf(addrs, customerId)|
  {
    var matches := (a: Address) => a.data.customerId == customerId;
    CountIsKeepSize(addrs, matches);
    CountWhere(addrs, matches)
  }

  /** The row the GROUP BY produces for customer `c`. */
  function Summarize(c: Customer, addrs: seq<Address>): (s: CustomerSummary)
    ensures s.customerId == c.id && s.firstName == c.data.firstName
    ensures s.lastName == c.data.lastName && s.phoneNumber == c.data.phoneNumber
    ensures s.addressCount == |AddressesOf(addrs, c.id)|
    ensures s.addressCount == 0 <==> s.cities.None?
  {
    var mine := AddressesOf(addrs, c.id);
    CustomerSummary(c.id, c.data.firstName, c.data.lastName, c.data.phoneNumber,
                    AddressCount(addrs, c.id), GroupConcat(Cities(mine)),
                    GroupConcat(States(mine)), GroupConcat(PinCodes(mine)))
  }

  /** The whole join, one row per customer in key order, customers without addresses included. */
  function Summaries(cs: seq<Customer>, addrs: seq<Address>): (r: seq<CustomerSummary>)
    ensures |r| == |cs|
    ensures forall i :: 0 <= i < |cs| ==> r[i] == Summarize(cs[i], addrs)
  {
    seq(|cs|, i requires 0 <= i < |cs| => Summarize(cs[i], addrs))
  }

  // ---- the search filter ----

  /** `(c['cities'] and search_query in c['cities'].lower())`: a NULL or empty column never matches. */
  predicate Hit(column: Option<string>, q: string)
    ensures Hit(column, q) <==>
      column.Some? && column.value != "" && exists k :: OccursAt(Lower(column.value), q, k)
  {
    column.Some? && column.value != "" &&
      (ContainsIff(Lower(column.value), q); Contains(Lower(column.value), q))
  }

  /** The condition of the list comprehension, for an already lowered query `q`. */
  predicate Matches(q: string, s: CustomerSummary)
    ensures Matches(q, s) <==>
      || (exists k :: OccursAt(Lower(s.firstName), q, k))
      || (exists k :: OccursAt(Lower(s.lastName), q, k))
      || (exists k :: OccursAt(Lower(s.phoneNumber), q, k))
      || Hit(s.cities, q) || Hit(s.states, q) || Hit(s.pinCodes, q)
  {
    ContainsIff(Lower(s.firstName), q);
    ContainsIff(Lower(s.lastName), q);
    ContainsIff(Lower(s.phoneNumber), q);
    || Contains(Lower(s.firstName), q)
    || Contains(Lower(s.lastName), q)
    || Contains(Lower(s.phoneNumber), q)
    || Hit(s.cities, q)
    || Hit(s.states, q)
    || Hit(s.pinCodes, q)
  }

  /** Lines 49 and 72-81 of get_customers applied to the joined rows: lower the query and,
      when it is not empty, keep the rows it matches. */
  function ApplySearch(rows: seq<CustomerSummary>, search: string): (r: seq<CustomerSummary>)
    ensures search == "" ==> r == rows
    ensures forall s :: s in r <==> s in rows && (search == "" || Matches(Lower(search), s))
    ensures SubsequenceOf(r, rows)
  {
    var q := Lower(search);
    if q != "" then
      var r := Keep(rows, (s: CustomerSummary) => Matches(q, s));
      forall s | s in r ensures s in rows && Matches(q, s) {
        var i :| 0 <= i < |r| && r[i] == s;
      }
      forall s | s in rows && Matches(q, s) ensures s in r {
        var i :| 0 <= i < |rows| && rows[i] == s;
      }
      r
    else
      SubsequenceOfSelf(rows);
      rows
  }

  /** Searching a search result again with the same query changes nothing. */
  lemma ApplySearchTwice(rows: seq<CustomerSummary>, search: string)
    ensures ApplySearch(ApplySearch(rows, search), search) == ApplySearch(rows, search)
  {
    var q := Lower(search);
    if q != "" { KeepTwice(rows, (s: CustomerSummary) => Matches(q, s)); }
  }

  /** The search ignores the case of the query: a query and its lowercased form list the same rows. */
  lemma ApplySearchIgnoresCase(rows: seq<CustomerSummary>, search: string)
    ensures ApplySearch(rows, Lower(search)) == ApplySearch(rows, search)
  {
    LowerIdempotent(search);
  }

  /** The JSON array of GET /customers?search=<search>. */
  function ListCustomers(cs: seq<Customer>, addrs: seq<Address>, search: string): (r: seq<CustomerSummary>)
    ensures SubsequenceOf(r, Summaries(cs, addrs))
    ensures search == "" ==> |r| == |cs|
    ensures forall i :: 0 <= i < |r| ==> r[i].addressCount == |AddressesOf(addrs, r[i].customerId)|
  {
    ApplySearch(Summaries(cs, addrs), search)
  }

  /** The count a listed customer carries is the number of addresses its detail view returns. */
  lemma ListedCountIsDetailSize(cs: seq<Customer>, addrs: seq<Address>, search: string, s: CustomerSummary)
    requires s in ListCustomers(cs, addrs, search)
    ensures s.addressCount == |AddressesOf(addrs, s.customerId)|
  {
    var rows := Summaries(cs, addrs);
    var i :| 0 <= i < |rows| && rows[i] == s;
  }

  /** After DELETE /customers/<id>, no listing shows that customer any more. */
  lemma DeletedNotListed(cs: seq<Customer>, addrs: seq<Address>, search: string, id: nat, s: CustomerSummary)
    requires s in ListCustomers(Remove(cs, id), addrs, search)
    ensures s.customerId != id
  {
    var rows := Summaries(Remove(cs, id), addrs);
    var i :| 0 <= i < |rows| && rows[i] == s;
  }

  /** After POST /customers, the unfiltered listing has exactly one more row, at the end, for the new customer. */
  lemma CreatedIsListedLast(cs: seq<Customer>, addrs: seq<Address>, c: Customer)
    ensures ListCustomers(cs + [c], addrs, "") == ListCustomers(cs, addrs, "") + [Summarize(c, addrs)]
  {
    var before := Summaries(cs, addrs);
    var after := Summaries(cs + [c], addrs);
    assert forall i :: 0 <= i < |cs| ==> after[i] == before[i];
    assert after == before + [Summarize(c, addrs)];
  }

  /** Searching for (part of) a city finds every customer who has an address there. */
  lemma SearchFindsCity(cs: seq<Customer>, addrs: seq<Address>, search: string, i: nat, j: nat)
    requires i < |cs| && j < |AddressesOf(addrs, cs[i].id)|
    requires Lower(search) != ""
    requires Contains(Lower(AddressesOf(addrs, cs[i].id)[j].data.city), Lower(search))
    ensures Summarize(cs[i], addrs) in ListCustomers(cs, addrs, search)
  {
    var q := Lower(search);
    var mine := AddressesOf(addrs, cs[i].id);
    var before, after := JoinSplit(Cities(mine), ",", j);
    var joined := Join(Cities(mine), ",");
    LowerAppend(before + mine[j].data.city, after);
    LowerAppend(before, mine[j].data.city);
    ContainsInside(Lower(before), Lower(mine[j].data.city), Lower(after), q);
    assert Contains(Lower(joined), q);
    ContainsIff(Lower(joined), q);
    assert joined != "";
    assert Hit(Summarize(cs[i], addrs).cities, q);
    assert Summarize(cs[i], addrs) in Summaries(cs, addrs);
  }

  /** A string contains only what its substrings are made of: a character of `q` missing from
      `s` rules the match out. */
  lemma {:induction false} ContainsKeepsChars(s: string, q: string, c: char)
    requires Contains(s, q) && c in q
    ensures c in s
    decreases |s|
  {
    if StartsWith(s, q) {
      var i :| 0 <= i < |q| && q[i] == c;
      assert s[..|q|][i] == s[i];
    } else {
      ContainsKeepsChars(s[1..], q, c);
    }
  }

  /** GROUP_CONCAT output is searched as one string, so a query can match across the comma
      between two cities although it occurs in neither city. */
  lemma SearchSpansSeparator(cs: seq<Customer>, addrs: seq<Address>)
    requires cs == [Row(1, CustomerData("Ann", "Lee", "555"))]
    requires addrs == [Row(1, AddressData(1, "1 Main St", "Austin", "TX", "73301")),
                       Row(2, AddressData(1, "2 Oak Ave", "Boston", "MA", "02101"))]
    ensures !Contains(Lower("Austin"), Lower("N,B")) && !Contains(Lower("Boston"), Lower("N,B"))
    ensures ListCustomers(cs, addrs, "N,B") == Summaries(cs, addrs)
  {
    var q := Lower("N,B");
    assert q[1] == ',';
    NoCommaNoMatch("Austin", q);
    NoCommaNoMatch("Boston", q);
    var s := Summarize(cs[0], addrs);
    assert AddressesOf(addrs, 1) == addrs;
    var joined := Join(Cities(addrs), ",");
    assert Cities(addrs) == ["Austin", "Boston"];
    SpanHit(joined, q);
    assert s.cities == Some(joined);
    assert Matches(q, s);
    assert Summaries(cs, addrs) == [s];
    KeepAll([s], (x: CustomerSummary) => Matches(q, x));
  }

  lemma NoCommaNoMatch(city: string, q: string)
    requires forall i :: 0 <= i < |city| ==> city[i] != ','
    requires |q| == 3 && q[1] == ','
    ensures !Contains(Lower(city), q)
  {
    if Contains(Lower(city), q) {
      ContainsKeepsChars(Lower(city), q, ',');
      assert false;
    }
  }

  lemma SpanHit(joined: string, q: string)
    requires joined == Join(["Austin", "Boston"], ",") && q == Lower("N,B")
    ensures Contains(Lower(joined), q)
  {
    assert joined == "Austin,Boston";
    assert Lower(joined)[5..8] == "n,b";
    assert q == "n,b";
    assert OccursAt(Lower(joined), q, 5);
    ContainsIff(Lower(joined), q);
  }
}
