/** The `knex_migrations` ledger: its rows, the version encoded in a row's
    name, and the queries the two force commands run against it. */
module KnexTable {
  import opened Wrappers
  import opened Numerals

  /** `migration_time` is only carried and displayed, never inspected. */
  type Timestamp = string

  datatype Row = Row(name: string, migratedAt: Timestamp, batch: int)

  /** `split_part(s, delim, 1)`: the text before the first `delim`, or all of
      `s` when it has none. */
  function FirstField(s: string, delim: char): (f: string)
    ensures f <= s && delim !in f
    ensures |f| < |s| ==> s[|f|] == delim
  {
    if s == [] || s[0] == delim then [] else [s[0]] + FirstField(s[1..], delim)
  }

  /** `split_part(name, '_', 1)::int`, or None where the cast raises. */
  function Version(name: string): (v: Option<int>)
    ensures v.Some? ==> MinInt4 <= v.value <= MaxInt4
    ensures v.Some? <==> ParseInteger(FirstField(name, '_')).Some? &&
                         MinInt4 <= ParseInteger(FirstField(name, '_')).value <= MaxInt4
    ensures v.Some? ==> v == ParseInteger(FirstField(name, '_'))
  {
    ParseInt4(FirstField(name, '_'))
  }

  /** A name made of digits, `_` and any text has those digits as its version,
      when they fit in 32 bits. */
  lemma {:induction false} VersionOfNumberedName(digits: string, rest: string)
    requires |digits| > 0 && AllDigits(digits) && DigitsValue(digits) <= MaxInt4
    ensures FirstField(digits + "_" + rest, '_') == digits
    ensures Version(digits + "_" + rest) == Some(DigitsValue(digits))
  {
    FirstFieldOfDigits(digits, rest);
  }

  lemma {:induction false} FirstFieldOfDigits(digits: string, rest: string)
    requires AllDigits(digits)
    ensures FirstField(digits + "_" + rest, '_') == digits
  {
    if digits != [] {
      assert (digits + "_" + rest)[1..] == digits[1..] + "_" + rest;
      FirstFieldOfDigits(digits[1..], rest);
    }
  }

  /** Every row's name has a prefix the cast accepts, so a query filtering on
      it does not raise. */
  predicate Versioned(rows: seq<Row>)
  {
    forall r :: r in rows ==> Version(r.name).Some?
  }

  /** A query filtering on `split_part(name, '_', 1)::int > ?` runs without
      raising: the bound version is taken as an `int` like the other operand,
      so it must fit in 32 bits, and every row's prefix must cast. */
  predicate Queryable(rows: seq<Row>, version: int)
  {
    MinInt4 <= version <= MaxInt4 && Versioned(rows)
  }

  /** The filter `split_part(name, '_', 1)::int > version`. */
  predicate Newer(r: Row, version: int)
    ensures Newer(r, version) ==> Version(r.name).Some? && version < Version(r.name).value <= MaxInt4
    ensures version >= MaxInt4 ==> !Newer(r, version)
  {
    Version(r.name).Some? && Version(r.name).value > version
  }

  /** The rows the filter selects, in table order. */
  function NewerThan(rows: seq<Row>, version: int): (selected: seq<Row>)
    ensures |selected| <= |rows|
  {
    if rows == [] then []
    else (if Newer(rows[0], version) then [rows[0]] else []) + NewerThan(rows[1..], version)
  }

  /** The rows a delete with that filter leaves behind, in table order. */
  function Kept(rows: seq<Row>, version: int): (kept: seq<Row>)
    ensures |kept| <= |rows|
  {
    if rows == [] then []
    else (if Newer(rows[0], version) then [] else [rows[0]]) + Kept(rows[1..], version)
  }

  /** The select returns exactly the rows the filter matches, and the delete
      keeps exactly the others. */
  lemma {:induction false} FilterMembers(rows: seq<Row>, version: int)
    ensures forall r :: r in NewerThan(rows, version) <==> r in rows && Newer(r, version)
    ensures forall r :: r in Kept(rows, version) <==> r in rows && !Newer(r, version)
  {
    if rows != [] {
      FilterMembers(rows[1..], version);
      assert rows == [rows[0]] + rows[1..];
    }
  }

  /** `s` is `t` with some elements left out and the rest in the same order. */
  predicate IsSubsequence(s: seq<Row>, t: seq<Row>)
    decreases |t|
  {
    if t == [] then s == []
    else (s != [] && s[0] == t[0] && IsSubsequence(s[1..], t[1..])) || IsSubsequence(s, t[1..])
  }

  /** Selection and delete split the table: every row goes to exactly one of
      them, as often as it occurs. */
  lemma {:induction false} NewerKeptPartition(rows: seq<Row>, version: int)
    ensures multiset(NewerThan(rows, version)) + multiset(Kept(rows, version)) == multiset(rows)
  {
    if rows != [] {
      var rest := rows[1..];
      NewerKeptPartition(rest, version);
      var newer, kept := NewerThan(rest, version), Kept(rest, version);
      assert multiset(rows) == multiset{rows[0]} + multiset(rest) by {
        assert rows == [rows[0]] + rest;
      }
      if Newer(rows[0], version) {
        assert multiset(NewerThan(rows, version)) == multiset{rows[0]} + multiset(newer);
        assert multiset(Kept(rows, version)) == multiset(kept);
      } else {
        assert multiset(NewerThan(rows, version)) == multiset(newer);
        assert multiset(Kept(rows, version)) == multiset{rows[0]} + multiset(kept);
      }
    }
  }

  /** The select returns every copy of each newer row, and the delete keeps
      every copy of each other row. */
  lemma NewerKeptCounts(rows: seq<Row>, version: int)
    ensures forall r :: Newer(r, version) ==> multiset(NewerThan(rows, version))[r] == multiset(rows)[r]
    ensures forall r :: !Newer(r, version) ==> multiset(Kept(rows, version))[r] == multiset(rows)[r]
  {
    NewerKeptPartition(rows, version);
    FilterMembers(rows, version);
  }

  /** A delete keeps the surviving rows unchanged and in their relative order. */
  lemma {:induction false} KeptIsSubsequence(rows: seq<Row>, version: int)
    ensures IsSubsequence(Kept(rows, version), rows)
  {
    if rows != [] {
      KeptIsSubsequence(rows[1..], version);
      var rest := Kept(rows[1..], version);
      if Newer(rows[0], version) {
        assert Kept(rows, version) == rest;
      } else {
        assert Kept(rows, version) == [rows[0]] + rest;
        assert ([rows[0]] + rest)[1..] == rest;
      }
    }
  }

  /** After the delete no row is newer than the version, every survivor has a
      version, and a repeated delete removes nothing. */
  lemma KeptHasNothingNewer(rows: seq<Row>, version: int)
    requires Versioned(rows)
    ensures Versioned(Kept(rows, version))
    ensures forall r :: r in Kept(rows, version) ==> Version(r.name).value <= version
    ensures NewerThan(Kept(rows, version), version) == []
    ensures Kept(Kept(rows, version), version) == Kept(rows, version)
  {
    FilterMembers(rows, version);
    NoneNewer(Kept(rows, version), version);
  }

  /** A table with no row newer than the version: the filter selects nothing
      and the delete keeps everything. */
  lemma {:induction false} NoneNewer(rows: seq<Row>, version: int)
    requires forall r :: r in rows ==> !Newer(r, version)
    ensures NewerThan(rows, version) == []
    ensures Kept(rows, version) == rows
  {
    if rows != [] {
      assert rows[0] in rows;
      NoneNewer(rows[1..], version);
      assert rows == [rows[0]] + rows[1..];
    }
  }

  /** The ledger table. Row order stands for insertion order. */
  class MigrationsTable {
    var rows: seq<Row>

    constructor (rows: seq<Row>)
      ensures this.rows == rows
    {
      this.rows := rows;
    }

    /** `select name, migration_time from <table> where
        split_part(name, '_', 1)::int > ?` with `version` bound; the query
        raises (None) when the version is not a 32-bit integer or some row's
        prefix is not. */
    method SelectNewer(version: int) returns (result: Option<seq<Row>>)
      ensures result.None? <==> !Queryable(rows, version)
      ensures result.Some? ==> result.value == NewerThan(rows, version)
    {
      if Queryable(rows, version) {
        result := Some(NewerThan(rows, version));
      } else {
        result := None;
      }
    }

    /** `delete from <table> where split_part(name, '_', 1)::int > ?` with
        `version` bound; raises, deleting nothing, exactly where the select
        would. */
    method DeleteNewer(version: int) returns (ok: bool)
      modifies this
      ensures ok <==> Queryable(old(rows), version)
      ensures rows == if ok then Kept(old(rows), version) else old(rows)
    {
      ok := Queryable(rows, version);
      if ok {
        rows := Kept(rows, version);
      }
    }

    /** `knex(<table>).del()`: empties the table. */
    method DeleteAll()
      modifies this
      ensures rows == []
    {
      rows := [];
    }

    /** `knex(<table>).insert(batch)`: appends the rows. */
    method Insert(batch: seq<Row>)
      modifies this
      ensures rows == old(rows) + batch
    {
      rows := rows + batch;
    }
  }
}
