/**
 * The pure logic of the transaction ledger kept by the `App` component
 * (FrontEnd/FinanceFolio/src/App.jsx): validating the form, giving loaded
 * entries an id, removing by id, and the newest-first history view.
 */
module Ledger {
  import opened Wrappers
  import opened Text

  /** The form's `tipo`: `compra` or `venta`. */
  datatype Kind = Buy | Sell

  /** The form as the user left it; `quantity` and `price` are still text. */
  datatype Form = Form(ticker: string, kind: Kind, quantity: string, price: string, date: string)

  /** A submission that passed validation, before it is given an id. */
  datatype Draft = Draft(ticker: string, kind: Kind, quantity: real, price: real, date: string) {
    function WithId(id: string): Transaction {
      Transaction(id, ticker, kind, quantity, price, date)
    }
  }

  /**
   * A ledger entry. `date` is the ISO `yyyy-mm-dd` text of the date input;
   * an `id` of `""` stands for an id that is missing or falsy in stored data.
   */
  datatype Transaction = Transaction(id: string, ticker: string, kind: Kind, quantity: real, price: real, date: string) {
    function Details(): Draft {
      Draft(ticker, kind, quantity, price, date)
    }
  }

  /** `parseFloat` gave a number above zero (`None` stands for `NaN`). */
  predicate IsPositive(n: Option<real>) {
    n.Some? && n.value > 0.0
  }

  /** What a submitted entry looks like: a normalised, non-empty ticker and positive amounts. */
  predicate WellFormed(d: Draft) {
    && d.ticker != []
    && Trim(d.ticker) == d.ticker
    && IsUpper(d.ticker)
    && d.quantity > 0.0
    && d.price > 0.0
    && d.date != []
  }

  /**
   * `handleSubmit`: a form is accepted exactly when its trimmed ticker is
   * not empty, both numbers parse to values above zero and a date is set;
   * the entry then holds the upper-cased, trimmed ticker and the parsed
   * numbers. `parse` stands for `parseFloat` after `','` becomes `'.'`.
   */
  function Submit(form: Form, parse: string -> Option<real>): (r: Option<Draft>)
    ensures r.Some? <==>
              && Trim(form.ticker) != []
              && IsPositive(parse(form.quantity))
              && IsPositive(parse(form.price))
              && form.date != []
    ensures r.Some? ==> WellFormed(r.value)
    ensures r.Some? ==> && r.value.ticker == Upper(Trim(form.ticker))
                        && r.value.kind == form.kind
                        && r.value.quantity == parse(form.quantity).value
                        && r.value.price == parse(form.price).value
                        && r.value.date == form.date
  {
    var quantity := parse(form.quantity);
    var price := parse(form.price);
    if Trim(form.ticker) == [] || !IsPositive(quantity) || !IsPositive(price) || form.date == [] then
      None
    else
      var ticker := Trim(Upper(form.ticker));
      TrimUpperCommute(form.ticker);
      TrimIdempotent(Upper(form.ticker));
      UpperIsUpper(Trim(form.ticker));
      Some(Draft(ticker, form.kind, quantity.value, price.value, form.date))
  }

  // ---------------------------------------------------------------------------
  // Ids
  // ---------------------------------------------------------------------------

  function Ids(s: seq<Transaction>): set<string> {
    set t | t in s :: t.id
  }

  predicate AllIdentified(s: seq<Transaction>) {
    forall k :: 0 <= k < |s| ==> s[k].id != []
  }

  predicate UniqueIds(s: seq<Transaction>) {
    forall j, k :: 0 <= j < k < |s| ==> s[j].id != s[k].id
  }

  /**
   * The load step: each stored entry keeps its id when it has one and
   * otherwise takes the next generated id; nothing else changes.
   */
  function Backfill(saved: seq<Transaction>, generated: seq<string>): (r: seq<Transaction>)
    requires |generated| == |saved|
    ensures |r| == |saved|
    ensures forall k :: 0 <= k < |r| ==> r[k].Details() == saved[k].Details()
    ensures forall k :: 0 <= k < |r| && saved[k].id != [] ==> r[k].id == saved[k].id
    ensures (forall g :: g in generated ==> g != []) ==> AllIdentified(r)
  {
    var r := seq(|saved|, k requires 0 <= k < |saved| =>
      if saved[k].id == [] then saved[k].(id := generated[k]) else saved[k]);
    assert forall k :: 0 <= k < |saved| ==> generated[k] in generated;
    r
  }

  /** Backfilling data that already carries ids leaves it as it is. */
  lemma BackfillIdentified(saved: seq<Transaction>, generated: seq<string>)
    requires |generated| == |saved| && AllIdentified(saved)
    ensures Backfill(saved, generated) == saved
  {
  }

  // ---------------------------------------------------------------------------
  // Removal
  // ---------------------------------------------------------------------------

  /** `filter(tx => tx.id !== id)`. */
  function RemoveId(s: seq<Transaction>, id: string): (r: seq<Transaction>)
    ensures |r| <= |s|
    ensures forall t :: t in r ==> t in s && t.id != id
  {
    if s == [] then []
    else if s[0].id == id then RemoveId(s[1..], id)
    else [s[0]] + RemoveId(s[1..], id)
  }

  /** Removal keeps every entry with another id, as often as it occurred, and drops all with this id. */
  lemma {:induction false} RemoveIdCounts(s: seq<Transaction>, id: string, t: Transaction)
    ensures multiset(RemoveId(s, id))[t] == if t.id == id then 0 else multiset(s)[t]
  {
    if s != [] {
      RemoveIdCounts(s[1..], id, t);
      assert s == [s[0]] + s[1..];
    }
  }

  /** Removal works piece by piece, so the kept entries stay in their order. */
  lemma {:induction false} RemoveIdConcat(a: seq<Transaction>, b: seq<Transaction>, id: string)
    ensures RemoveId(a + b, id) == RemoveId(a, id) + RemoveId(b, id)
  {
    if a != [] {
      assert (a + b)[1..] == a[1..] + b;
      RemoveIdConcat(a[1..], b, id);
    } else {
      assert a + b == b;
    }
  }

  /** Removing an id no entry has changes nothing, and only then. */
  lemma {:induction false} RemoveUnknownId(s: seq<Transaction>, id: string)
    ensures RemoveId(s, id) == s <==> id !in Ids(s)
  {
    if s != [] {
      RemoveUnknownId(s[1..], id);
      assert s == [s[0]] + s[1..];
      assert Ids(s) == {s[0].id} + Ids(s[1..]);
      if s[0].id == id {
        assert |RemoveId(s, id)| < |s|;
      }
    }
  }

  /** Deleting the entry just added, under its fresh id, gives back the ledger before the add. */
  lemma AddThenRemove(s: seq<Transaction>, d: Draft, id: string)
    requires id !in Ids(s)
    ensures RemoveId(s + [d.WithId(id)], id) == s
  {
    RemoveIdConcat(s, [d.WithId(id)], id);
    RemoveUnknownId(s, id);
  }

  /**
   * A row's delete button passes that row's id: when ids are unique, the
   * delete removes exactly the clicked row and keeps the rest in order.
   */
  lemma RemoveClicked(s: seq<Transaction>, k: nat)
    requires UniqueIds(s) && k < |s|
    ensures RemoveId(s, s[k].id) == s[..k] + s[k+1..]
  {
    var id := s[k].id;
    var before, after := s[..k], s[k+1..];
    var rest := [s[k]] + after;
    assert s == before + rest;
    RemoveIdConcat(before, rest, id);
    RemoveIdConcat([s[k]], after, id);
    assert RemoveId([s[k]], id) == [] by {
      assert [s[k]][1..] == [];
    }
    IdElsewhere(s, k, 0, k);
    RemoveUnknownId(before, id);
    IdElsewhere(s, k, k + 1, |s|);
    RemoveUnknownId(after, id);
    calc {
      RemoveId(s, id);
      RemoveId(before, id) + RemoveId(rest, id);
      before + (RemoveId([s[k]], id) + RemoveId(after, id));
      before + ([] + after);
      { assert [] + after == after; }
      before + after;
    }
  }

  /** Under unique ids, a slice that leaves out position `k` holds no entry with `s[k]`'s id. */
  lemma IdElsewhere(s: seq<Transaction>, k: nat, lo: nat, hi: nat)
    requires UniqueIds(s) && k < |s| && lo <= hi <= |s| && (hi <= k || k < lo)
    ensures s[k].id !in Ids(s[lo..hi])
  {
    forall t | t in s[lo..hi] ensures t.id != s[k].id {
      var j :| 0 <= j < hi - lo && s[lo..hi][j] == t;
      assert t == s[lo + j];
    }
  }

  /** Appending an entry under a fresh id keeps the ids unique. */
  lemma AppendFresh(s: seq<Transaction>, t: Transaction)
    requires UniqueIds(s) && t.id !in Ids(s)
    ensures UniqueIds(s + [t]) && Ids(s + [t]) == Ids(s) + {t.id}
  {
    var s' := s + [t];
    forall j, k | 0 <= j < k < |s'| ensures s'[j].id != s'[k].id {
      if k == |s| { assert s'[j] == s[j] && s[j] in s; }
    }
  }

  // ---------------------------------------------------------------------------
  // History view: newest first
  // ---------------------------------------------------------------------------

  /** `a` happened on or before `b`. */
  predicate NotAfter(a: Transaction, b: Transaction) {
    LexLeq(a.date, b.date)
  }

  /** Non-increasing dates: the order the history table shows. */
  ghost predicate NewestFirst(s: seq<Transaction>) {
    forall j, k :: 0 <= j < k < |s| ==> NotAfter(s[k], s[j])
  }

  /** Puts `t` in front of the first entry that is not later than it. */
  function Insert(t: Transaction, s: seq<Transaction>): (r: seq<Transaction>)
    ensures multiset(r) == multiset(s) + multiset{t}
  {
    if s == [] || NotAfter(s[0], t) then [t] + s
    else
      assert s == [s[0]] + s[1..];
      [s[0]] + Insert(t, s[1..])
  }

  /**
   * `[...transactions].sort((a, b) => new Date(b.fecha) - new Date(a.fecha))`:
   * a stable sort on the date, latest first.
   */
  function SortNewestFirst(s: seq<Transaction>): (r: seq<Transaction>)
    ensures multiset(r) == multiset(s)
  {
    if s == [] then []
    else
      assert s == [s[0]] + s[1..];
      Insert(s[0], SortNewestFirst(s[1..]))
  }

  lemma {:induction false} InsertNewestFirst(t: Transaction, s: seq<Transaction>)
    requires NewestFirst(s)
    ensures NewestFirst(Insert(t, s))
  {
    if s == [] || NotAfter(s[0], t) {
      var r := [t] + s;
      forall j, k | 0 <= j < k < |r| ensures NotAfter(r[k], r[j]) {
        if j == 0 && k > 1 {
          assert r[k] == s[k - 1] && NotAfter(s[k - 1], s[0]);
          LexLeqTransitive(r[k].date, s[0].date, t.date);
        }
      }
    } else {
      InsertNewestFirst(t, s[1..]);
      var u := Insert(t, s[1..]);
      var r := [s[0]] + u;
      LexLeqTotal(s[0].date, t.date);
      forall k | 1 <= k < |r| ensures NotAfter(r[k], s[0]) {
        assert r[k] in multiset(u);
      }
    }
  }

  /** The history view is ordered latest date first. */
  lemma {:induction false} SortIsNewestFirst(s: seq<Transaction>)
    ensures NewestFirst(SortNewestFirst(s))
  {
    if s != [] {
      SortIsNewestFirst(s[1..]);
      InsertNewestFirst(s[0], SortNewestFirst(s[1..]));
    }
  }

  /** The entries of `s` dated `date`, in their order in `s`. */
  function OnDate(s: seq<Transaction>, date: string): seq<Transaction> {
    if s == [] then []
    else if s[0].date == date then [s[0]] + OnDate(s[1..], date)
    else OnDate(s[1..], date)
  }

  lemma {:induction false} InsertOnDate(t: Transaction, s: seq<Transaction>, date: string)
    ensures OnDate(Insert(t, s), date) == if t.date == date then [t] + OnDate(s, date) else OnDate(s, date)
  {
    if s != [] && !NotAfter(s[0], t) {
      InsertOnDate(t, s[1..], date);
      LexLeqReflexive(t.date);
      assert ([s[0]] + Insert(t, s[1..]))[1..] == Insert(t, s[1..]);
    } else {
      assert ([t] + s)[1..] == s;
    }
  }

  /** The sort is stable: entries on the same date keep their ledger order. */
  lemma {:induction false} SortIsStable(s: seq<Transaction>, date: string)
    ensures OnDate(SortNewestFirst(s), date) == OnDate(s, date)
  {
    if s != [] {
      SortIsStable(s[1..], date);
      InsertOnDate(s[0], SortNewestFirst(s[1..]), date);
    }
  }
}
