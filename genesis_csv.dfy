/**
 * The allocation table of creator.go (`genesisCSV`): a header row whose
 * labels name the submitted, name, KYC and funding columns and one column per
 * seed account, followed by one row per entity. Decoded records are given as
 * a sequence of rows of cells.
 */
module GenesisCsv {
  import opened Wrappers
  import opened Quantity
  import opened Errors
  import opened Text
  import opened Config

  /** `parseHumanReadableNumberToUint64`: every comma is dropped, then the rest is parsed as a base-10 `uint64`. */
  function ParseHumanReadableNumber(s: string): Result<Uint64, Error>
  {
    ParseUint(RemoveChar(s, ','))
  }

  /** What parsing a table cell accepts and yields: the comma-free text, read in base 10, below 2^64. */
  lemma ParseHumanReadableMeaning(s: string)
    ensures var t := RemoveChar(s, ',');
      && (ParseHumanReadableNumber(s).Success? <==> t != [] && AllDigits(t) && DecimalValue(t) < TwoTo64)
      && (ParseHumanReadableNumber(s).Success? ==> ParseHumanReadableNumber(s).value == DecimalValue(t))
      && (ParseHumanReadableNumber(s).Failure? ==> ParseHumanReadableNumber(s).error in {NumSyntax(t), NumRange(t)})
  {
    ParseUintMeaning(RemoveChar(s, ','));
  }

  /** A comma anywhere in a cell is ignored. */
  lemma CommaIgnored(a: string, b: string)
    ensures ParseHumanReadableNumber(a + "," + b) == ParseHumanReadableNumber(a + b)
  {
    RemoveCharConcat(a + ",", b, ',');
    RemoveCharConcat(a, ",", ',');
    RemoveCharConcat(a, b, ',');
    assert RemoveChar(",", ',') == [];
    assert RemoveChar(a, ',') + [] == RemoveChar(a, ',');
  }

  /** The plain decimal text of a `uint64` reads back as that number. */
  lemma ParseHumanReadableRoundTrip(n: Uint64)
    ensures ParseHumanReadableNumber(DecimalString(n)) == Success(n)
  {
    var s := DecimalString(n);
    assert forall i | 0 <= i < |s| :: s[i] != ',' by {
      forall i | 0 <= i < |s| ensures s[i] != ',' {
        assert IsDigit(s[i]);
      }
    }
    RemoveCharAbsent(s, ',');
    ParseFormatRoundTrip(n);
  }

  /** Every row of the table has the header's width, and the header is not empty (the CSV reader's guarantee). */
  predicate Rectangular(records: seq<seq<string>>)
  {
    && records != []
    && |records[0]| != 0
    && forall i | 0 <= i < |records| :: |records[i]| == |records[0]|
  }

  /** The column positions `mapIndices` records. */
  datatype Columns = Columns(kyc: nat, submitted: nat, name: nat, funding: nat, accounts: map<string, nat>)

  predicate FitsWidth(cols: Columns, width: nat)
  {
    && cols.kyc < width && cols.submitted < width && cols.name < width && cols.funding < width
    && forall a | a in cols.accounts :: cols.accounts[a] < width
  }

  predicate RowsFit(rows: seq<seq<string>>, cols: Columns)
  {
    forall i | 0 <= i < |rows| :: FitsWidth(cols, |rows[i]|)
  }

  /** Which `case` of the header `switch` a label falls in; the first matching label wins. */
  datatype Role = Kyc | Submitted | Name | Funding | Other

  function RoleOf(cell: string, options: GenesisCsvOptions): Role
  {
    if cell == options.kycLabel then Kyc
    else if cell == options.entityPackageSubmittedLabel then Submitted
    else if cell == options.entityPackageNameLabel then Name
    else if cell == options.fundingLabel then Funding
    else Other
  }

  /**
   * The index recorded for `role` after the first `n` header cells: the
   * last of them whose label has that role, or `init` when none has.
   */
  function RoleIndex(header: seq<string>, options: GenesisCsvOptions, role: Role, init: nat, n: nat): (i: nat)
    requires n <= |header|
    ensures i == init || (i < n && RoleOf(header[i], options) == role)
    decreases n
  {
    if n == 0 then init
    else if RoleOf(header[n - 1], options) == role then n - 1
    else RoleIndex(header, options, role, init, n - 1)
  }

  /** No cell after the recorded index has the role, and `init` is kept only when no cell has it. */
  lemma {:induction false} RoleIndexIsLast(header: seq<string>, options: GenesisCsvOptions, role: Role, init: nat, n: nat)
    requires n <= |header|
    ensures var i := RoleIndex(header, options, role, init, n);
      && (forall j | i < j < n :: RoleOf(header[j], options) != role)
      && ((forall j | 0 <= j < n :: RoleOf(header[j], options) != role) ==> i == init)
      && ((exists j :: 0 <= j < n && RoleOf(header[j], options) == role) ==> i < n && RoleOf(header[i], options) == role)
    decreases n
  {
    if n != 0 && RoleOf(header[n - 1], options) != role {
      RoleIndexIsLast(header, options, role, init, n - 1);
    }
  }

  /** The column positions after header cell `index` is seen: the effect of one `case` of the `switch`. */
  function MapCell(cols: Columns, cell: string, index: nat, options: GenesisCsvOptions, lookup: map<string, string>): Columns
  {
    match RoleOf(cell, options)
    case Kyc => cols.(kyc := index)
    case Submitted => cols.(submitted := index)
    case Name => cols.(name := index)
    case Funding => cols.(funding := index)
    case Other => if cell in lookup then cols.(accounts := cols.accounts[lookup[cell] := index]) else cols
  }

  /** The column positions after the first `n` header cells, starting from `init`. */
  function MappedColumns(header: seq<string>, options: GenesisCsvOptions, lookup: map<string, string>, init: Columns, n: nat): Columns
    requires n <= |header|
    decreases n
  {
    if n == 0 then init
    else MapCell(MappedColumns(header, options, lookup, init, n - 1), header[n - 1], n - 1, options, lookup)
  }

  /** Each fixed column is the last cell with its label, and the seed-account columns are as `AccountColumns` describes. */
  lemma {:induction false} MappedColumnsMeaning(header: seq<string>, options: GenesisCsvOptions, lookup: map<string, string>, init: Columns, n: nat)
    requires n <= |header|
    ensures MappedColumns(header, options, lookup, init, n) == Columns(
      RoleIndex(header, options, Kyc, init.kyc, n),
      RoleIndex(header, options, Submitted, init.submitted, n),
      RoleIndex(header, options, Name, init.name, n),
      RoleIndex(header, options, Funding, init.funding, n),
      AccountColumns(header, options, lookup, init.accounts, n))
    decreases n
  {
    if n != 0 {
      MappedColumnsMeaning(header, options, lookup, init, n - 1);
    }
  }

  /** `accountLookup` maps each seed account's label to a seed account carrying that label. */
  ghost predicate IsLabelLookup(accounts: map<string, GenesisAccount>, names: set<string>, lookup: map<string, string>)
    requires names <= accounts.Keys
  {
    && lookup.Keys == (set n | n in names :: accounts[n].csvLabel)
    && forall l | l in lookup :: lookup[l] in names && accounts[lookup[l]].csvLabel == l
  }

  /** Recording one more seed account's label keeps the lookup description. */
  lemma LookupStep(accounts: map<string, GenesisAccount>, lookup: map<string, string>, done: set<string>, name: string)
    requires done <= accounts.Keys && name in accounts && name !in done
    requires IsLabelLookup(accounts, done, lookup)
    ensures IsLabelLookup(accounts, done + {name}, lookup[accounts[name].csvLabel := name])
  {
    var lookup' := lookup[accounts[name].csvLabel := name];
    assert lookup'.Keys == (set n | n in done + {name} :: accounts[n].csvLabel);
  }

  /**
   * The first loop of `mapIndices`: each seed account's label is entered
   * under the account's name, in map order, so of two accounts sharing a
   * label one of them (either) is kept.
   */
  method LabelLookup(accounts: map<string, GenesisAccount>) returns (accountLookup: map<string, string>)
    ensures IsLabelLookup(accounts, accounts.Keys, accountLookup)
  {
    accountLookup := map[];
    var remaining := accounts.Keys;
    ghost var done: set<string> := {};
    while remaining != {}
      invariant remaining + done == accounts.Keys && remaining !! done
      invariant IsLabelLookup(accounts, done, accountLookup)
      decreases remaining
    {
      var name :| name in remaining;
      LookupStep(accounts, accountLookup, done, name);
      accountLookup := accountLookup[accounts[name].csvLabel := name];
      remaining := remaining - {name};
      done := done + {name};
    }
  }

  /** With distinct labels the lookup is unique, whatever order built it. */
  lemma LabelLookupUnique(accounts: map<string, GenesisAccount>, lookup1: map<string, string>, lookup2: map<string, string>)
    requires forall n1, n2 | n1 in accounts && n2 in accounts && accounts[n1].csvLabel == accounts[n2].csvLabel :: n1 == n2
    requires IsLabelLookup(accounts, accounts.Keys, lookup1) && IsLabelLookup(accounts, accounts.Keys, lookup2)
    ensures lookup1 == lookup2
  {
    forall l | l in lookup1 ensures l in lookup2 && lookup1[l] == lookup2[l] {
      assert accounts[lookup1[l]].csvLabel == l;
    }
  }

  /** Header cell `j` is a seed-account column of `name`. */
  ghost predicate ColumnOf(header: seq<string>, options: GenesisCsvOptions, lookup: map<string, string>, j: nat, name: string)
  {
    j < |header| && RoleOf(header[j], options) == Other && header[j] in lookup && lookup[header[j]] == name
  }

  /** The seed-account columns after the first `n` header cells, starting from `init`. */
  function AccountColumns(header: seq<string>, options: GenesisCsvOptions, lookup: map<string, string>, init: map<string, nat>, n: nat): map<string, nat>
    requires n <= |header|
    decreases n
  {
    if n == 0 then init
    else
      var m := AccountColumns(header, options, lookup, init, n - 1);
      var cell := header[n - 1];
      if RoleOf(cell, options) == Other && cell in lookup then m[lookup[cell] := n - 1] else m
  }

  /**
   * A seed account gets a column exactly when some non-fixed header cell
   * carries its label, and the column recorded is the last such cell.
   */
  lemma {:induction false} AccountColumnsMeaning(header: seq<string>, options: GenesisCsvOptions, lookup: map<string, string>, init: map<string, nat>, n: nat, name: string)
    requires n <= |header|
    ensures var m := AccountColumns(header, options, lookup, init, n);
      && (name in m <==> name in init || exists j :: 0 <= j < n && ColumnOf(header, options, lookup, j, name))
      && ((exists j :: 0 <= j < n && ColumnOf(header, options, lookup, j, name)) ==>
            && m[name] < n && ColumnOf(header, options, lookup, m[name], name)
            && forall j | m[name] < j < n :: !ColumnOf(header, options, lookup, j, name))
      && ((forall j | 0 <= j < n :: !ColumnOf(header, options, lookup, j, name)) && name in init ==> m[name] == init[name])
    decreases n
  {
    if n != 0 {
      AccountColumnsMeaning(header, options, lookup, init, n - 1, name);
      var cell := header[n - 1];
      if RoleOf(cell, options) == Other && cell in lookup && lookup[cell] == name {
        assert ColumnOf(header, options, lookup, n - 1, name);
      } else {
        assert !ColumnOf(header, options, lookup, n - 1, name);
      }
    }
  }

  lemma {:induction false} AccountColumnsFit(header: seq<string>, options: GenesisCsvOptions, lookup: map<string, string>, init: map<string, nat>, n: nat, width: nat)
    requires n <= |header| && n <= width
    requires forall a | a in init :: init[a] < width
    ensures forall a | a in AccountColumns(header, options, lookup, init, n) :: AccountColumns(header, options, lookup, init, n)[a] < width
    decreases n
  {
    if n != 0 {
      AccountColumnsFit(header, options, lookup, init, n - 1, width);
      var m := AccountColumns(header, options, lookup, init, n - 1);
      var cell := header[n - 1];
      if RoleOf(cell, options) == Other && cell in lookup {
        assert AccountColumns(header, options, lookup, init, n) == m[lookup[cell] := n - 1];
      } else {
        assert AccountColumns(header, options, lookup, init, n) == m;
      }
    }
  }

  /**
   * The inner loop of `process`: the cell of every seed-account column, in
   * map order, read as a number; the first cell that does not parse ends
   * the loop with its error.
   */
  method ParseDelegations(record: seq<string>, accountIndices: map<string, nat>) returns (r: Result<map<string, Uint64>, Error>)
    requires forall a | a in accountIndices :: accountIndices[a] < |record|
    ensures r.Success? <==> forall a | a in accountIndices :: ParseHumanReadableNumber(record[accountIndices[a]]).Success?
    ensures r.Success? ==> r.value.Keys == accountIndices.Keys
    ensures r.Success? ==> forall a | a in r.value :: ParseHumanReadableNumber(record[accountIndices[a]]) == Success(r.value[a])
    ensures r.Failure? ==> exists a | a in accountIndices :: ParseHumanReadableNumber(record[accountIndices[a]]) == Failure(r.error)
  {
    var delegations: map<string, Uint64> := map[];
    var remaining := accountIndices.Keys;
    while remaining != {}
      invariant remaining <= accountIndices.Keys
      invariant delegations.Keys == accountIndices.Keys - remaining
      invariant forall a | a in delegations :: ParseHumanReadableNumber(record[accountIndices[a]]) == Success(delegations[a])
      decreases remaining
    {
      var accountName :| accountName in remaining;
      var value := ParseHumanReadableNumber(record[accountIndices[accountName]]);
      if value.Failure? {
        return Failure(value.error);
      }
      delegations := delegations[accountName := value.value];
      remaining := remaining - {accountName};
    }
    return Success(delegations);
  }

  /** How one data row is treated: skipped, rejected for a cell that does not parse, or kept. */
  datatype RowOutcome = Skipped | Rejected | Kept(name: string, allocation: Allocation)

  /**
   * One iteration of `process`: a row is skipped unless its submitted cell
   * is exactly `TRUE` and its lower-cased name is not blank; its funds are
   * read only when its KYC cell is exactly `TRUE`; every seed-account cell
   * is read; any unreadable cell rejects the row.
   */
  function ClassifyRow(row: seq<string>, cols: Columns): RowOutcome
    requires FitsWidth(cols, |row|)
  {
    if row[cols.submitted] != "TRUE" then Skipped
    else
      var entityName := ToLower(row[cols.name]);
      if entityName == "" then Skipped
      else
        var funding: Result<Uint64, Error> := if row[cols.kyc] == "TRUE" then ParseHumanReadableNumber(row[cols.funding]) else Success(0);
        if funding.Failure? || exists a | a in cols.accounts :: ParseHumanReadableNumber(row[cols.accounts[a]]).Failure? then Rejected
        else Kept(entityName, Allocation(map a | a in cols.accounts :: ParseHumanReadableNumber(row[cols.accounts[a]]).value, funding.value))
  }

  /** The error a rejected row reports: its funding cell's, if that is read and fails, else some seed-account cell's. */
  ghost predicate RowError(row: seq<string>, cols: Columns, e: Error)
    requires FitsWidth(cols, |row|)
  {
    if row[cols.kyc] == "TRUE" && ParseHumanReadableNumber(row[cols.funding]).Failure? then
      e == ParseHumanReadableNumber(row[cols.funding]).error
    else
      exists a | a in cols.accounts :: ParseHumanReadableNumber(row[cols.accounts[a]]) == Failure(e)
  }

  /** The position of the first rejected row, or the number of rows when none is rejected. */
  function FirstRejected(rows: seq<seq<string>>, cols: Columns): (k: nat)
    requires RowsFit(rows, cols)
    ensures k <= |rows|
    ensures forall j | 0 <= j < k :: !ClassifyRow(rows[j], cols).Rejected?
    ensures k < |rows| ==> ClassifyRow(rows[k], cols).Rejected?
    decreases |rows|
  {
    if rows == [] then 0
    else if ClassifyRow(rows[0], cols).Rejected? then 0
    else 1 + FirstRejected(rows[1..], cols)
  }

  /** The allocation table after the rows, in order, starting from `init`: each kept row overwrites its entity's entry. */
  function Fold(rows: seq<seq<string>>, cols: Columns, init: map<string, Allocation>): map<string, Allocation>
    requires RowsFit(rows, cols)
    decreases |rows|
  {
    if rows == [] then init
    else
      var m := Fold(rows[..|rows| - 1], cols, init);
      match ClassifyRow(rows[|rows| - 1], cols)
      case Kept(entityName, allocation) => m[entityName := allocation]
      case _ => m
  }

  /** Every name in the table is a starting name or the name of some kept row; no other row adds one. */
  lemma {:induction false} FoldNames(rows: seq<seq<string>>, cols: Columns, init: map<string, Allocation>, n: string)
    requires RowsFit(rows, cols)
    requires n in Fold(rows, cols, init) && n !in init
    ensures exists i :: 0 <= i < |rows| && ClassifyRow(rows[i], cols).Kept? && ClassifyRow(rows[i], cols).name == n
    decreases |rows|
  {
    var front := rows[..|rows| - 1];
    var last := ClassifyRow(rows[|rows| - 1], cols);
    if !(last.Kept? && last.name == n) {
      assert n in Fold(front, cols, init);
      FoldNames(front, cols, init, n);
      var i :| 0 <= i < |front| && ClassifyRow(front[i], cols).Kept? && ClassifyRow(front[i], cols).name == n;
      assert front[i] == rows[i];
    }
  }

  /** A later row with the same name overwrites an earlier one: the last kept row of a name decides its entry. */
  lemma {:induction false} FoldLastWins(rows: seq<seq<string>>, cols: Columns, init: map<string, Allocation>, i: nat)
    requires RowsFit(rows, cols)
    requires i < |rows| && ClassifyRow(rows[i], cols).Kept?
    requires forall j | i < j < |rows| :: !(ClassifyRow(rows[j], cols).Kept? && ClassifyRow(rows[j], cols).name == ClassifyRow(rows[i], cols).name)
    ensures ClassifyRow(rows[i], cols).name in Fold(rows, cols, init)
    ensures Fold(rows, cols, init)[ClassifyRow(rows[i], cols).name] == ClassifyRow(rows[i], cols).allocation
    decreases |rows|
  {
    var front := rows[..|rows| - 1];
    if i < |rows| - 1 {
      assert front[i] == rows[i];
      forall j | i < j < |front| ensures !(ClassifyRow(front[j], cols).Kept? && ClassifyRow(front[j], cols).name == ClassifyRow(front[i], cols).name) {
        assert front[j] == rows[j];
      }
      FoldLastWins(front, cols, init, i);
    }
  }

  /** Processing one more row: the table of the longer prefix is the shorter one's, updated by that row if it is kept. */
  lemma FoldNext(rows: seq<seq<string>>, cols: Columns, init: map<string, Allocation>, row: nat)
    requires RowsFit(rows, cols) && row < |rows|
    ensures RowsFit(rows[..row], cols) && RowsFit(rows[..row + 1], cols)
    ensures var m, out := Fold(rows[..row], cols, init), ClassifyRow(rows[row], cols);
      Fold(rows[..row + 1], cols, init) == if out.Kept? then m[out.name := out.allocation] else m
  {
    assert rows[..row + 1][..row] == rows[..row];
  }

  /** Reading the rows in order up to the first rejected one: a rejected row is the first, any other keeps the reading going. */
  lemma FirstRejectedNext(rows: seq<seq<string>>, cols: Columns, row: nat)
    requires RowsFit(rows, cols) && row < |rows| && row <= FirstRejected(rows, cols)
    ensures ClassifyRow(rows[row], cols).Rejected? ==> FirstRejected(rows, cols) == row
    ensures !ClassifyRow(rows[row], cols).Rejected? ==> row < FirstRejected(rows, cols)
  {
  }

  /** A submitted, named row whose cells all read is kept, with the amounts read from them. */
  lemma KeptFromCells(row: seq<string>, cols: Columns, funding: Uint64, delegations: map<string, Uint64>)
    requires FitsWidth(cols, |row|)
    requires row[cols.submitted] == "TRUE" && ToLower(row[cols.name]) != ""
    requires row[cols.kyc] == "TRUE" ==> ParseHumanReadableNumber(row[cols.funding]) == Success(funding)
    requires row[cols.kyc] != "TRUE" ==> funding == 0
    requires delegations.Keys == cols.accounts.Keys
    requires forall a | a in delegations :: ParseHumanReadableNumber(row[cols.accounts[a]]) == Success(delegations[a])
    ensures ClassifyRow(row, cols) == Kept(ToLower(row[cols.name]), Allocation(delegations, funding))
  {
    assert (map a | a in cols.accounts :: ParseHumanReadableNumber(row[cols.accounts[a]]).value) == delegations;
  }

  /** Rows without a `TRUE` submitted cell, or with a blank name, are skipped. */
  lemma SkippedRows(row: seq<string>, cols: Columns)
    requires FitsWidth(cols, |row|)
    ensures ClassifyRow(row, cols).Skipped? <==> row[cols.submitted] != "TRUE" || ToLower(row[cols.name]) == ""
  {
  }

  /**
   * A kept row: the entry is under the lower-cased name, funds are read
   * only with a `TRUE` KYC cell and are 0 otherwise, and every seed-account
   * column contributes one delegation amount read from its cell.
   */
  lemma KeptRow(row: seq<string>, cols: Columns)
    requires FitsWidth(cols, |row|)
    requires ClassifyRow(row, cols).Kept?
    ensures var out := ClassifyRow(row, cols);
      && out.name == ToLower(row[cols.name]) && out.name != ""
      && row[cols.submitted] == "TRUE"
      && (row[cols.kyc] != "TRUE" ==> out.allocation.funds == 0)
      && (row[cols.kyc] == "TRUE" ==> ParseHumanReadableNumber(row[cols.funding]) == Success(out.allocation.funds))
      && out.allocation.delegations.Keys == cols.accounts.Keys
      && forall a | a in cols.accounts :: ParseHumanReadableNumber(row[cols.accounts[a]]) == Success(out.allocation.delegations[a])
  {
  }

  /** A submitted, named row is rejected exactly when a cell it reads does not parse. */
  lemma RejectedRow(row: seq<string>, cols: Columns)
    requires FitsWidth(cols, |row|)
    requires row[cols.submitted] == "TRUE" && ToLower(row[cols.name]) != ""
    ensures ClassifyRow(row, cols).Rejected? <==>
      || (row[cols.kyc] == "TRUE" && ParseHumanReadableNumber(row[cols.funding]).Failure?)
      || exists a | a in cols.accounts :: ParseHumanReadableNumber(row[cols.accounts[a]]).Failure?
  {
  }

  class GenesisCsv {
    const options: GenesisCsvOptions
    const accounts: map<string, GenesisAccount>
    const records: seq<seq<string>>
    var kycIndex: nat
    var entityPackageSubmittedIndex: nat
    var entityPackageNameIndex: nat
    var fundingIndex: nat
    var accountIndices: map<string, nat>
    var allocations: map<string, Allocation>

    function Header(): seq<string>
      requires records != []
    {
      records[0]
    }

    function Rows(): seq<seq<string>>
      requires records != []
    {
      records[1..]
    }

    function Cols(): Columns
      reads this
    {
      Columns(kycIndex, entityPackageSubmittedIndex, entityPackageNameIndex, fundingIndex, accountIndices)
    }

    /** The table is rectangular and every recorded column lies within it. */
    predicate Valid()
      reads this
    {
      Rectangular(records) && FitsWidth(Cols(), |records[0]|)
    }

    lemma RowsFitTable()
      requires Valid()
      ensures RowsFit(Rows(), Cols())
    {
      forall i | 0 <= i < |Rows()| ensures FitsWidth(Cols(), |Rows()[i]|) {
        assert Rows()[i] == records[i + 1];
      }
    }

    /**
     * `loadGenesisCSV` after reading the file: the header is mapped, the
     * rows are processed, and the errors of both are dropped, so the table
     * holds whatever the rows before the first rejected one produced.
     */
    constructor (options: GenesisCsvOptions, accounts: map<string, GenesisAccount>, records: seq<seq<string>>)
      requires Rectangular(records)
      ensures Valid()
      ensures this.options == options && this.accounts == accounts && this.records == records
      ensures exists lookup :: IsLabelLookup(accounts, accounts.Keys, lookup) && accountIndices == AccountColumns(records[0], options, lookup, map[], |records[0]|)
      ensures kycIndex == RoleIndex(records[0], options, Kyc, 0, |records[0]|)
      ensures entityPackageSubmittedIndex == RoleIndex(records[0], options, Submitted, 0, |records[0]|)
      ensures entityPackageNameIndex == RoleIndex(records[0], options, Name, 0, |records[0]|)
      ensures fundingIndex == RoleIndex(records[0], options, Funding, 0, |records[0]|)
      ensures RowsFit(records[1..], Cols())
      ensures allocations == Fold(records[1..][..FirstRejected(records[1..], Cols())], Cols(), map[])
    {
      this.options := options;
      this.accounts := accounts;
      this.records := records;
      kycIndex := 0;
      entityPackageSubmittedIndex := 0;
      entityPackageNameIndex := 0;
      fundingIndex := 0;
      accountIndices := map[];
      allocations := map[];
      new;
      MapIndices();
      var _ := Process();
      RowsFitTable();
    }

    /**
     * `mapIndices`: each header cell, in order, either sets the index of
     * the first fixed label it equals or, failing that, records itself as
     * the column of the seed account its label names. Labels that never
     * appear leave their index as it was.
     */
    method MapIndices()
      requires Valid()
      modifies this
      ensures Valid()
      ensures allocations == old(allocations)
      ensures exists lookup :: IsLabelLookup(accounts, accounts.Keys, lookup) && accountIndices == AccountColumns(Header(), options, lookup, old(accountIndices), |Header()|)
      ensures kycIndex == RoleIndex(Header(), options, Kyc, old(kycIndex), |Header()|)
      ensures entityPackageSubmittedIndex == RoleIndex(Header(), options, Submitted, old(entityPackageSubmittedIndex), |Header()|)
      ensures entityPackageNameIndex == RoleIndex(Header(), options, Name, old(entityPackageNameIndex), |Header()|)
      ensures fundingIndex == RoleIndex(Header(), options, Funding, old(fundingIndex), |Header()|)
    {
      var accountLookup := LabelLookup(accounts);
      var header := records[0];
      ghost var init := Cols();
      var index := 0;
      while index < |header|
        invariant index <= |header|
        invariant Cols() == MappedColumns(header, options, accountLookup, init, index)
        invariant allocations == old(allocations)
      {
        var cell := header[index];
        if cell == options.kycLabel {
          kycIndex := index;
        } else if cell == options.entityPackageSubmittedLabel {
          entityPackageSubmittedIndex := index;
        } else if cell == options.entityPackageNameLabel {
          entityPackageNameIndex := index;
        } else if cell == options.fundingLabel {
          fundingIndex := index;
        } else if cell in accountLookup {
          accountIndices := accountIndices[accountLookup[cell] := index];
        }
        index := index + 1;
      }
      MappedColumnsMeaning(header, options, accountLookup, init, |header|);
      AccountColumnsFit(header, options, accountLookup, init.accounts, |header|, |header|);
    }

    /**
     * `process`: the data rows in order, each skipped, rejected or stored
     * under its entity's name. The first rejected row ends the run with its
     * error; the entries of the rows before it stay in the table.
     */
    method Process() returns (err: Option<Error>)
      requires Valid()
      modifies this
      ensures Valid() && Cols() == old(Cols())
      ensures RowsFit(Rows(), Cols())
      ensures var k := FirstRejected(Rows(), Cols());
        && allocations == Fold(Rows()[..k], Cols(), old(allocations))
        && (err.None? <==> k == |Rows()|)
        && (err.Some? ==> RowError(Rows()[k], Cols(), err.value))
    {
      RowsFitTable();
      var rows := records[1..];
      var cols := Cols();
      ghost var init := allocations;
      var row := 0;
      while row < |rows|
        invariant row <= FirstRejected(rows, cols)
        invariant Cols() == cols && RowsFit(rows[..row], cols)
        invariant allocations == Fold(rows[..row], cols, init)
      {
        var record := rows[row];
        FoldNext(rows, cols, init, row);
        FirstRejectedNext(rows, cols, row);
        if record[entityPackageSubmittedIndex] != "TRUE" {
          row := row + 1;
          continue;
        }
        var entityName := ToLower(record[entityPackageNameIndex]);
        if entityName == "" {
          row := row + 1;
          continue;
        }
        var funding: Uint64 := 0;
        if record[kycIndex] == "TRUE" {
          var value := ParseHumanReadableNumber(record[fundingIndex]);
          if value.Failure? {
            assert ClassifyRow(record, cols).Rejected?;
            assert RowError(record, cols, value.error);
            return Some(value.error);
          }
          funding := value.value;
        }
        var delegations := ParseDelegations(record, accountIndices);
        if delegations.Failure? {
          assert ClassifyRow(record, cols).Rejected?;
          assert RowError(record, cols, delegations.error);
          return Some(delegations.error);
        }
        KeptFromCells(record, cols, funding, delegations.value);
        allocations := allocations[entityName := Allocation(delegations.value, funding)];
        row := row + 1;
      }
      assert rows[..row] == rows;
      return None;
    }
  }
}
