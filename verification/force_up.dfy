/** `knex force-up`: rewrite the ledger from the migrations folder, after the
    operator re-types the highest migration number. */
module ForceUp {
  import opened Wrappers
  import opened Numerals
  import opened Process
  import opened KnexTable
  import opened Confirm

  /** An entry of the migrations folder: its number and its file name. */
  datatype Migration = Migration(id: int, name: string)

  /** `Math.max` on integers. */
  function Max(a: int, b: int): (m: int)
    ensures m >= a && m >= b
    ensures m == a || m == b
  {
    if a >= b then a else b
  }

  /** `migrations.map(m => m.id).reduce((a, b) => Math.max(a, b), 0)`. */
  function HighestNumber(ms: seq<Migration>): (h: int)
    ensures h >= 0
    ensures forall m :: m in ms ==> m.id <= h
    ensures h == 0 || exists m :: m in ms && m.id == h
  {
    if ms == [] then 0
    else
      var init := ms[..|ms| - 1];
      assert ms == init + [ms[|ms| - 1]];
      Max(HighestNumber(init), ms[|ms| - 1].id)
  }

  predicate SortedById(ms: seq<Migration>)
  {
    forall i, j :: 0 <= i < j < |ms| ==> ms[i].id <= ms[j].id
  }

  predicate DistinctIds(ms: seq<Migration>)
  {
    forall i, j :: 0 <= i < j < |ms| ==> ms[i].id != ms[j].id
  }

  /** `migrations.sort((a, b) => a.id - b.id)`: sorts the array in place by
      number. */
  method SortById(a: array<Migration>)
    modifies a
    ensures SortedById(a[..])
    ensures multiset(a[..]) == multiset(old(a[..]))
  {
    var i := 0;
    while i < a.Length
      invariant 0 <= i <= a.Length
      invariant SortedPrefix(a, i)
      invariant multiset(a[..]) == multiset(old(a[..]))
    {
      InsertAt(a, i);
      i := i + 1;
    }
  }

  /** The first `n` entries of `a` are in order by number. */
  ghost predicate SortedPrefix(a: array<Migration>, n: int)
    requires n <= a.Length
    reads a
  {
    forall k, l :: 0 <= k < l < n ==> a[k].id <= a[l].id
  }

  /** One insertion step: moves `a[i]` left past every larger number, so
      that the first `i + 1` entries are in order. */
  method InsertAt(a: array<Migration>, i: int)
    requires 0 <= i < a.Length && SortedPrefix(a, i)
    modifies a
    ensures SortedPrefix(a, i + 1)
    ensures multiset(a[..]) == multiset(old(a[..]))
  {
    var j := i;
    while j > 0 && a[j - 1].id > a[j].id
      invariant 0 <= j <= i
      invariant forall k, l :: 0 <= k < l <= i && k != j && l != j ==> a[k].id <= a[l].id
      invariant forall l :: j < l <= i ==> a[j].id < a[l].id
      invariant multiset(a[..]) == multiset(old(a[..]))
    {
      Swap(a, j - 1, j);
      j := j - 1;
    }
  }

  method Swap(a: array<Migration>, i: int, j: int)
    requires 0 <= i < j < a.Length
    modifies a
    ensures a[i] == old(a[j]) && a[j] == old(a[i])
    ensures forall k :: 0 <= k < a.Length && k != i && k != j ==> a[k] == old(a[k])
    ensures multiset(a[..]) == multiset(old(a[..]))
  {
    a[i], a[j] := a[j], a[i];
  }

  /** The rows inserted for the sorted migrations: one per migration, in
      order, each in batch 1 and stamped with the database's `now()`. */
  function LedgerRows(ms: seq<Migration>, now: Timestamp): (rows: seq<Row>)
    ensures |rows| == |ms| && RowNames(rows) == MigrationNames(ms)
    ensures forall r :: r in rows ==> r.batch == 1 && r.migratedAt == now
  {
    seq(|ms|, i requires 0 <= i < |ms| => Row(ms[i].name, now, 1))
  }

  function MigrationNames(ms: seq<Migration>): seq<string>
  {
    seq(|ms|, i requires 0 <= i < |ms| => ms[i].name)
  }

  function RowNames(rows: seq<Row>): seq<string>
  {
    seq(|rows|, i requires 0 <= i < |rows| => rows[i].name)
  }

  /** Runs the handler against `table`. `dirExists` says whether the
      migrations folder exists, `listing` is what reading it returns,
      `answer` is what the operator types and `now` the database's `now()`.
      `prompt` is the token the prompt asked for, None when no prompt was
      shown; `inserted` is the sorted list the new rows come from. */
  method Handler(table: MigrationsTable, dirExists: bool, listing: seq<Migration>,
                 answer: string, now: Timestamp)
    returns (outcome: Termination, prompt: Option<string>, ghost inserted: seq<Migration>)
    modifies table
    // No migrations folder: exit 1 before any prompt, ledger untouched.
    ensures !dirExists ==>
      outcome == Exit(NothingToDo) && prompt == None && table.rows == old(table.rows)
    // Otherwise the prompt asks for the highest migration number.
    ensures dirExists ==> prompt == Some(Token(HighestNumber(listing)))
    // A wrong answer: exit 2, ledger untouched.
    ensures prompt.Some? && answer != prompt.value ==>
      outcome == Exit(NotConfirmed) && table.rows == old(table.rows)
    // The right answer: the ledger is replaced by one row per migration, by number.
    ensures prompt.Some? && answer == prompt.value ==>
      outcome == Exit(Success) &&
      SortedById(inserted) && multiset(inserted) == multiset(listing) &&
      table.rows == LedgerRows(inserted, now)
  {
    inserted := [];
    if !dirExists {
      return Exit(NothingToDo), None, inserted;
    }
    var highestNumber := HighestNumber(listing);
    prompt := Some(Token(highestNumber));
    if answer != prompt.value {
      return Exit(NotConfirmed), prompt, inserted;
    }
    var migrations := new Migration[|listing|](i requires 0 <= i < |listing| => listing[i]);
    assert migrations[..] == listing;
    SortById(migrations);
    inserted := migrations[..];
    table.DeleteAll();
    table.Insert(LedgerRows(migrations[..], now));
    outcome := Exit(Success);
  }

  /** The confirmation token does not depend on the order the folder is read
      in: reordering the migrations leaves the highest number unchanged. */
  lemma HighestNumberOfPermutation(a: seq<Migration>, b: seq<Migration>)
    requires multiset(a) == multiset(b)
    ensures HighestNumber(a) == HighestNumber(b)
  {
    forall m | m in a ensures m in b {
      assert m in multiset(a);
    }
    forall m | m in b ensures m in a {
      assert m in multiset(b);
    }
  }

  /** After a rebuild the token the operator typed is the number of the last
      row inserted, or 0 when every number is negative. */
  lemma TokenIsLastInserted(inserted: seq<Migration>, listing: seq<Migration>)
    requires SortedById(inserted) && multiset(inserted) == multiset(listing)
    requires inserted != []
    ensures HighestNumber(listing) == Max(0, inserted[|inserted| - 1].id)
  {
    HighestNumberOfPermutation(inserted, listing);
    var h := HighestNumber(inserted);
    var last := inserted[|inserted| - 1];
    assert last in inserted;
    if h != 0 {
      var m :| m in inserted && m.id == h;
      var k :| 0 <= k < |inserted| && inserted[k] == m;
      assert k == |inserted| - 1 || inserted[k].id <= last.id;
    }
  }

  /** An entry of a sequence stands at some index of it. */
  lemma FindIndex(s: seq<Migration>, x: Migration) returns (k: int)
    requires x in multiset(s)
    ensures 0 <= k < |s| && s[k] == x
  {
    assert x in s;
    k :| 0 <= k < |s| && s[k] == x;
  }

  lemma MigrationNamesConcat(x: seq<Migration>, y: seq<Migration>)
    ensures MigrationNames(x + y) == MigrationNames(x) + MigrationNames(y)
  {
  }

  /** Taking out one entry takes one copy of it out of the multiset. */
  lemma RemoveAt(s: seq<Migration>, k: int)
    requires 0 <= k < |s|
    ensures multiset(s[..k] + s[k + 1..]) == multiset(s) - multiset{s[k]}
    ensures k == 0 ==> s[..k] + s[k + 1..] == s[1..]
  {
    assert s == s[..k] + [s[k]] + s[k + 1..];
  }

  /** Taking out one entry takes one copy of its name out of the names. */
  lemma NamesRemoveAt(s: seq<Migration>, k: int, rest: seq<Migration>)
    requires 0 <= k < |s| && rest == s[..k] + s[k + 1..]
    ensures multiset(MigrationNames(s)) == multiset(MigrationNames(rest)) + multiset{s[k].name}
  {
    assert s == s[..k] + [s[k]] + s[k + 1..];
    MigrationNamesConcat(s[..k], s[k + 1..]);
    MigrationNamesConcat(s[..k] + [s[k]], s[k + 1..]);
    MigrationNamesConcat(s[..k], [s[k]]);
  }

  /** Reordering the migrations reorders their names and nothing else. */
  lemma {:induction false} MigrationNamesOfPermutation(a: seq<Migration>, b: seq<Migration>)
    requires multiset(a) == multiset(b)
    ensures multiset(MigrationNames(a)) == multiset(MigrationNames(b))
    decreases |a|
  {
    if a == [] {
      assert |multiset(b)| == 0;
    } else {
      assert a[0] in multiset(a);
      var k := FindIndex(b, a[0]);
      var rest := b[..k] + b[k + 1..];
      var tail := a[1..];
      assert multiset(tail) == multiset(rest) by {
        RemoveAt(b, k);
        RemoveAt(a, 0);
      }
      MigrationNamesOfPermutation(tail, rest);
      NamesRemoveAt(a, 0, tail);
      NamesRemoveAt(b, k, rest);
    }
  }

  /** What a completed rebuild leaves in the ledger: exactly one row per
      migration of the folder, named after it, in batch 1, stamped `now`, and
      nothing of the old ledger. */
  lemma RebuildContents(inserted: seq<Migration>, listing: seq<Migration>, now: Timestamp)
    requires multiset(inserted) == multiset(listing)
    ensures |LedgerRows(inserted, now)| == |listing|
    ensures RowNames(LedgerRows(inserted, now)) == MigrationNames(inserted)
    ensures multiset(RowNames(LedgerRows(inserted, now))) == multiset(MigrationNames(listing))
    ensures forall r :: r in LedgerRows(inserted, now) ==> r.batch == 1 && r.migratedAt == now
  {
    assert |inserted| == |multiset(listing)|;
    MigrationNamesOfPermutation(inserted, listing);
  }

  /** Every entry left after taking out entry `k` stands at another index. */
  lemma RemoveAtIndex(s: seq<Migration>, k: int, i: int)
    requires 0 <= k < |s| && 0 <= i < |s| - 1
    ensures var j := if i < k then i else i + 1;
      j != k && (s[..k] + s[k + 1..])[i] == s[j]
  {
  }

  /** Taking out an entry keeps the numbers distinct. */
  lemma DistinctIdsRemoveAt(s: seq<Migration>, k: int)
    requires 0 <= k < |s| && DistinctIds(s)
    ensures DistinctIds(s[..k] + s[k + 1..])
  {
    var rest := s[..k] + s[k + 1..];
    forall i, j | 0 <= i < j < |rest| ensures rest[i].id != rest[j].id {
      RemoveAtIndex(s, k, i);
      RemoveAtIndex(s, k, j);
    }
  }

  /** Reordering keeps the numbers distinct. */
  lemma {:induction false} DistinctIdsOfPermutation(a: seq<Migration>, b: seq<Migration>)
    requires multiset(a) == multiset(b) && DistinctIds(a)
    ensures DistinctIds(b)
    decreases |b|
  {
    if b != [] {
      assert b[0] in multiset(b);
      var k := FindIndex(a, b[0]);
      var rest := a[..k] + a[k + 1..];
      RemoveAt(a, k);
      RemoveAt(b, 0);
      DistinctIdsRemoveAt(a, k);
      DistinctIdsOfPermutation(rest, b[1..]);
      forall i, j | 0 <= i < j < |b| ensures b[i].id != b[j].id {
        var y := b[j];
        assert y == b[1..][j - 1];
        if i == 0 {
          assert y in multiset(b[1..]);
          var m := FindIndex(rest, y);
          RemoveAtIndex(a, k, m);
        } else {
          assert b[i] == b[1..][i - 1];
        }
      }
    }
  }

  /** Two sorted permutations of the same migrations, the first with
      distinct numbers, start with the same entry. */
  lemma SortedPermutationsSameHead(s: seq<Migration>, t: seq<Migration>)
    requires SortedById(s) && SortedById(t) && DistinctIds(s)
    requires multiset(s) == multiset(t) && s != []
    ensures t != [] && s[0] == t[0]
  {
    assert s[0] in multiset(s);
    var m := FindIndex(t, s[0]);
    assert t[0] in multiset(t);
    var k := FindIndex(s, t[0]);
    assert s[k].id == t[0].id <= t[m].id == s[0].id;
  }

  /** Two sequences with the same first entry are permutations of each
      other exactly when their tails are, and equal exactly when their tails are. */
  lemma SameHeadTails(s: seq<Migration>, t: seq<Migration>)
    requires s != [] && t != [] && s[0] == t[0]
    ensures multiset(s) == multiset(t) <==> multiset(s[1..]) == multiset(t[1..])
    ensures s == t <==> s[1..] == t[1..]
  {
    assert s == [s[0]] + s[1..] && t == [t[0]] + t[1..];
    assert multiset(s) == multiset{s[0]} + multiset(s[1..]);
    assert multiset(t) == multiset{t[0]} + multiset(t[1..]);
    RemoveAt(s, 0);
    RemoveAt(t, 0);
  }

  /** Dropping the first entry keeps a sequence sorted and its numbers distinct. */
  lemma TailSortedDistinct(s: seq<Migration>)
    requires s != [] && SortedById(s)
    ensures SortedById(s[1..])
    ensures DistinctIds(s) ==> DistinctIds(s[1..])
  {
  }

  /** With distinct numbers there is only one way to sort the migrations. */
  lemma {:induction false} SortedPermutationUnique(s: seq<Migration>, t: seq<Migration>)
    requires SortedById(s) && SortedById(t) && DistinctIds(s)
    requires multiset(s) == multiset(t)
    ensures s == t
    decreases |s|
  {
    if s == [] {
      assert |multiset(t)| == 0;
    } else {
      SortedPermutationsSameHead(s, t);
      SameHeadTails(s, t);
      TailSortedDistinct(s);
      TailSortedDistinct(t);
      SortedPermutationUnique(s[1..], t[1..]);
      SameHeadTails(s, t);
    }
  }

  /** Rebuilding twice from the same folder gives the same ledger names in the
      same order; only the timestamps differ. */
  lemma RebuildIsIdempotent(listing: seq<Migration>, first: seq<Migration>, second: seq<Migration>,
                            now1: Timestamp, now2: Timestamp)
    requires DistinctIds(listing)
    requires SortedById(first) && multiset(first) == multiset(listing)
    requires SortedById(second) && multiset(second) == multiset(listing)
    ensures RowNames(LedgerRows(first, now1)) == RowNames(LedgerRows(second, now2))
  {
    DistinctIdsOfPermutation(listing, first);
    SortedPermutationUnique(first, second);
  }

  /** When each file name starts with its own number and the numbers are
      distinct, the rebuilt ledger read by name prefix is strictly increasing,
      and every row has a prefix a later force-down can filter on. */
  lemma RebuildAscending(inserted: seq<Migration>, listing: seq<Migration>, now: Timestamp)
    requires SortedById(inserted) && multiset(inserted) == multiset(listing)
    requires DistinctIds(listing)
    requires forall m :: m in listing ==> Version(m.name) == Some(m.id)
    ensures Versioned(LedgerRows(inserted, now))
    ensures forall i, j :: 0 <= i < j < |inserted| ==>
      Version(LedgerRows(inserted, now)[i].name).value < Version(LedgerRows(inserted, now)[j].name).value
  {
    DistinctIdsOfPermutation(listing, inserted);
    forall m | m in inserted ensures Version(m.name) == Some(m.id) {
      assert m in multiset(inserted);
    }
  }
}
