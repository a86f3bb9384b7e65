/** Worked examples: small ledgers and folders worked through the two
    handlers and the definitions they are specified by. */
module Scenarios {
  import opened Wrappers
  import opened Numerals
  import opened KnexTable
  import opened Process
  import opened Confirm
  import opened ForceUp
  import ForceDown

  lemma InitVersion()
    ensures Version("001_init") == Some(1)
  {
    assert "001"[..2] == "00" && "00"[..1] == "0" && "0"[..0] == "";
    VersionOfNumberedName("001", "init");
    assert "001" + "_" + "init" == "001_init";
  }

  lemma AddUsersVersion()
    ensures Version("002_add_users") == Some(2)
  {
    assert "002"[..2] == "00" && "00"[..1] == "0" && "0"[..0] == "";
    VersionOfNumberedName("002", "add_users");
    assert "002" + "_" + "add_users" == "002_add_users";
  }

  lemma AddIndexVersion()
    ensures Version("003_add_index") == Some(3)
  {
    assert "003"[..2] == "00" && "00"[..1] == "0" && "0"[..0] == "";
    VersionOfNumberedName("003", "add_index");
    assert "003" + "_" + "add_index" == "003_add_index";
  }

  lemma SmallTokens()
    ensures Token(1) == "1" && Token(5) == "5"
  {
  }

  /** Ledger `001_init`, `002_add_users`, `003_add_index`; `force-down 1`
      asks for "1", and once it is typed only `001_init` remains. */
  lemma DowngradeToOne(t: Timestamp)
    ensures var rows := [Row("001_init", t, 1), Row("002_add_users", t, 1), Row("003_add_index", t, 1)];
      Versioned(rows) && NewerThan(rows, 1) == rows[1..] &&
      Token(1) == "1" && Kept(rows, 1) == [rows[0]]
  {
    InitVersion();
    AddUsersVersion();
    AddIndexVersion();
    SmallTokens();
    DropLastTwo(Row("001_init", t, 1), Row("002_add_users", t, 1), Row("003_add_index", t, 1), 1);
  }

  lemma DropLastTwo(r1: Row, r2: Row, r3: Row, version: int)
    requires !Newer(r1, version) && Newer(r2, version) && Newer(r3, version)
    ensures NewerThan([r1, r2, r3], version) == [r2, r3]
    ensures Kept([r1, r2, r3], version) == [r1]
  {
    assert [r1, r2, r3][1..] == [r2, r3] && [r2, r3][1..] == [r3] && [r3][1..] == [];
    assert NewerThan([r3], version) == [r3] && Kept([r3], version) == [];
    assert NewerThan([r2, r3], version) == [r2, r3] && Kept([r2, r3], version) == [];
  }

  /** Ledger `001_init` only; `force-down 5` selects nothing, so it exits 1
      without a prompt. */
  lemma NothingToDowngrade(t: Timestamp)
    ensures var rows := [Row("001_init", t, 1)];
      Versioned(rows) && NewerThan(rows, 5) == []
  {
    InitVersion();
  }

  lemma HighestOfThree()
    ensures HighestNumber([Migration(1, "001_init.sql"), Migration(2, "002_add_users.sql"),
                           Migration(5, "005_cleanup.sql")]) == 5
  {
    var listing := [Migration(1, "001_init.sql"), Migration(2, "002_add_users.sql"),
                    Migration(5, "005_cleanup.sql")];
    assert listing[..2][..1] == [listing[0]];
    assert listing[..2] == [listing[0], listing[1]];
  }

  lemma RowsOfThree(now: Timestamp)
    ensures SortedById([Migration(1, "001_init.sql"), Migration(2, "002_add_users.sql"),
                        Migration(5, "005_cleanup.sql")])
    ensures DistinctIds([Migration(1, "001_init.sql"), Migration(2, "002_add_users.sql"),
                         Migration(5, "005_cleanup.sql")])
    ensures LedgerRows([Migration(1, "001_init.sql"), Migration(2, "002_add_users.sql"),
                        Migration(5, "005_cleanup.sql")], now)
         == [Row("001_init.sql", now, 1), Row("002_add_users.sql", now, 1), Row("005_cleanup.sql", now, 1)]
  {
  }

  /** Folder `001_init.sql`, `002_add_users.sql`, `005_cleanup.sql`: the
      token is "5", "4" is refused, and the rebuilt ledger holds exactly
      three rows in batch 1, by number. */
  lemma RebuildFromThree(sorted: seq<Migration>, now: Timestamp)
    requires SortedById(sorted)
    requires multiset(sorted) == multiset([Migration(1, "001_init.sql"), Migration(2, "002_add_users.sql"),
                                           Migration(5, "005_cleanup.sql")])
    ensures HighestNumber([Migration(1, "001_init.sql"), Migration(2, "002_add_users.sql"),
                           Migration(5, "005_cleanup.sql")]) == 5
    ensures Token(5) == "5" && "4" != Token(5)
    ensures LedgerRows(sorted, now) == [Row("001_init.sql", now, 1), Row("002_add_users.sql", now, 1),
                                        Row("005_cleanup.sql", now, 1)]
  {
    HighestOfThree();
    SmallTokens();
    var listing := [Migration(1, "001_init.sql"), Migration(2, "002_add_users.sql"),
                    Migration(5, "005_cleanup.sql")];
    RowsOfThree(now);
    SortedPermutationUnique(listing, sorted);
  }

  /** `force-down 1` on the ledger `001_init`, `002_add_users`,
      `003_add_index`, answered with "1": exit 0 with only `001_init` left. */
  method ForceDownToOne(t: Timestamp) returns (outcome: Termination, prompt: Option<string>, left: seq<Row>)
    ensures prompt == Some("1")
    ensures outcome == Exit(Success) && left == [Row("001_init", t, 1)]
  {
    var table := new MigrationsTable([Row("001_init", t, 1), Row("002_add_users", t, 1),
                                      Row("003_add_index", t, 1)]);
    DowngradeToOne(t);
    outcome, prompt := ForceDown.Handler(table, 1, "1");
    left := table.rows;
  }

  /** `force-down 2147483648` on the ledger `001_init`: the bound version is
      not a 32-bit integer, so the select raises before any prompt and the
      ledger is kept. */
  method ForceDownPastInt4(t: Timestamp) returns (outcome: Termination, prompt: Option<string>, left: seq<Row>)
    ensures outcome == Rejected && prompt == None && left == [Row("001_init", t, 1)]
  {
    var table := new MigrationsTable([Row("001_init", t, 1)]);
    outcome, prompt := ForceDown.Handler(table, MaxInt4 + 1, "2147483648");
    left := table.rows;
  }

  /** `force-up` on the folder `001_init.sql`, `002_add_users.sql`,
      `005_cleanup.sql` (read in another order), answered with "5": exit 0
      with the three rows in batch 1, by number, in place of the old ledger. */
  method ForceUpFromThree(old_rows: seq<Row>, now: Timestamp)
    returns (outcome: Termination, prompt: Option<string>, rebuilt: seq<Row>)
    ensures prompt == Some("5")
    ensures outcome == Exit(Success)
    ensures rebuilt == [Row("001_init.sql", now, 1), Row("002_add_users.sql", now, 1),
                        Row("005_cleanup.sql", now, 1)]
  {
    var table := new MigrationsTable(old_rows);
    var listing := [Migration(5, "005_cleanup.sql"), Migration(1, "001_init.sql"),
                    Migration(2, "002_add_users.sql")];
    var sorted := [Migration(1, "001_init.sql"), Migration(2, "002_add_users.sql"),
                   Migration(5, "005_cleanup.sql")];
    assert multiset(listing) == multiset(sorted);
    HighestNumberOfPermutation(listing, sorted);
    HighestOfThree();
    SmallTokens();
    ghost var inserted;
    outcome, prompt, inserted := ForceUp.Handler(table, true, listing, "5", now);
    RebuildFromThree(inserted, now);
    rebuilt := table.rows;
  }
}
