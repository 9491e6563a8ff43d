/** What the export mapping promises: dates read back from their
    MM/DD/YYYY text, the Deceased? column is Yes or No, columns with nothing
    to read from are blank, output names are clean and end in `.xlsx`, and
    processing leaves the export Completed with one record per audit row or
    Failed with the error. */
module ExportProperties {
  import opened Wrappers
  import opened Text
  import opened Models
  import opened Dates
  import opened ExportRoutes

  // ---------------------------------------------------------------------------
  // formatDate
  // ---------------------------------------------------------------------------

  /** A leading zero does not change the value of a digit string. */
  lemma {:induction false} ParseNatLeadingZero(s: string)
    requires AllDigits(s)
    ensures ParseNat("0" + s) == ParseNat(s)
    decreases |s|
  {
    if s != [] {
      var t := "0" + s;
      assert t[..|t| - 1] == "0" + s[..|s| - 1];
      assert t[|t| - 1] == s[|s| - 1];
      ParseNatLeadingZero(s[..|s| - 1]);
    } else {
      assert ("0" + s)[..0] == [];
    }
  }

  lemma ParseIntOfDigits(s: string)
    requires AllDigits(s) && s != []
    ensures ParseIntText(s) == Some(ParseNat(s))
  {
    LeadingDigitsOfDigits(s);
  }

  /** A padded month or day reads back as the number. */
  lemma ParseIntOfPadded(n: nat)
    requires n < 100
    ensures AllDigits(PadTwo(NatToString(n))) && '/' !in PadTwo(NatToString(n))
    ensures ParseIntText(PadTwo(NatToString(n))) == Some(n)
  {
    var s := NatToString(n);
    ParseNatToString(n);
    if |s| == 1 {
      ParseNatLeadingZero(s);
    }
    var p := PadTwo(s);
    assert AllDigits(p) by {
      forall k | 0 <= k < |p| ensures IsDigit(p[k]) {
        if k >= |p| - |s| {
          assert p[k] == p[|p| - |s|..][k - (|p| - |s|)];
        }
      }
    }
    ParseIntOfDigits(p);
  }

  lemma NoSlashInDigits(s: string)
    requires AllDigits(s)
    ensures '/' !in s
  {
    assert forall k :: 0 <= k < |s| ==> IsDigit(s[k]);
  }

  /** `formatDate` is '' for no date; otherwise splitting its text at `/`
      and reading each piece with `parseInt` gives back the month, the day
      and the year. */
  lemma FormatDateReadsBack(d: Date)
    requires 1 <= d.month <= 12 && 1 <= d.day <= 31
    ensures FormatDate(None) == []
    ensures var parts := Split(FormatDate(Some(d)), '/');
      && |parts| == 3
      && ParseIntText(parts[0]) == Some(d.month)
      && ParseIntText(parts[1]) == Some(d.day)
      && ParseIntText(parts[2]) == Some(d.year)
      && |parts[0]| == 2 && |parts[1]| == 2
  {
    var mm, dd, yy := PadTwo(NatToString(d.month)), PadTwo(NatToString(d.day)), NatToString(d.year);
    ParseIntOfPadded(d.month);
    ParseIntOfPadded(d.day);
    ParseIntOfNatText(d.year);
    NoSlashInDigits(yy);
    FormatDateJoins(d);
    SplitThree(mm, dd, yy, '/');
    assert Split(FormatDate(Some(d)), '/') == [mm, dd, yy];
  }

  lemma FormatDateJoins(d: Date)
    ensures FormatDate(Some(d)) == PadTwo(NatToString(d.month)) + ['/'] + PadTwo(NatToString(d.day)) + ['/'] + NatToString(d.year)
  {
  }

  // ---------------------------------------------------------------------------
  // The row mapping
  // ---------------------------------------------------------------------------

  /** `Deceased?` is Yes exactly for a member flagged deceased, and No
      otherwise, a missing member included. */
  lemma DeceasedYesNo(row: FileImportRow, club: Option<Club>, member: Option<Member>, exportSetId: Option<string>)
    ensures var r := ExportRowOf(row, club, member, exportSetId);
      && (r[DeceasedColumn] == "Yes" <==> member.Some? && member.value.deceased == Some(true))
      && (r[DeceasedColumn] == "Yes" || r[DeceasedColumn] == "No")
  {
  }

  /** The unmapped columns are always blank. */
  lemma UnmappedBlank(row: FileImportRow, club: Option<Club>, member: Option<Member>, exportSetId: Option<string>)
    ensures var r := ExportRowOf(row, club, member, exportSetId);
      forall k :: k in UnmappedColumns ==> r[k] == ""
  {
  }

  /** The club columns are blank when the row has no club. */
  lemma MissingClubBlank(row: FileImportRow, member: Option<Member>, exportSetId: Option<string>)
    ensures var r := ExportRowOf(row, None, member, exportSetId);
      forall k :: k in ClubColumns ==> r[k] == ""
  {
  }

  /** The club columns hold the club's name, charter number and state. */
  lemma ClubColumnsOf(row: FileImportRow, c: Club, member: Option<Member>, exportSetId: Option<string>)
    ensures var r := ExportRowOf(row, Some(c), member, exportSetId);
      r[3] == c.name && r[4] == c.charterNumber && r[5] == c.state
  {
  }

  /** Every column read from the member is blank when the row has none. */
  lemma MissingMemberBlank(row: FileImportRow, club: Option<Club>, exportSetId: Option<string>)
    ensures var r := ExportRowOf(row, club, None, exportSetId);
      forall k :: k in MemberColumns ==> r[k] == ""
  {
  }

  /** The row's own columns and the export set are copied as they are. */
  lemma RowColumnsOf(row: FileImportRow, club: Option<Club>, member: Option<Member>, exportSetId: Option<string>)
    ensures var r := ExportRowOf(row, club, member, exportSetId);
      r[0] == row.rowId && r[1] == row.exception && r[ExportSetColumn] == exportSetId.GetOr("")
  {
  }

  /** The member's names and email, as the member holds them. */
  lemma MemberNamesOf(row: FileImportRow, club: Option<Club>, m: Member, exportSetId: Option<string>)
    ensures var r := ExportRowOf(row, club, Some(m), exportSetId);
      r[7] == m.lastName && r[8] == m.firstName && r[19] == m.email
  {
  }

  /** The expiration column is the member's expiration, formatted. */
  lemma MemberExpirationOf(row: FileImportRow, club: Option<Club>, m: Member, exportSetId: Option<string>)
    ensures ExportRowOf(row, club, Some(m), exportSetId)[20] == FormatDate(m.membershipExpiration)
  {
  }

  /** The type column is the member's membership type. */
  lemma MemberTypeOf(row: FileImportRow, club: Option<Club>, m: Member, exportSetId: Option<string>)
    ensures ExportRowOf(row, club, Some(m), exportSetId)[21] == m.membershipType.Name()
  {
  }

  // ---------------------------------------------------------------------------
  // The output file name
  // ---------------------------------------------------------------------------

  lemma EndsWithAfterDash(p: string, c: string)
    requires |p| >= 1 && p[|p| - 1] == '-'
    ensures EndsWith(p + c, ".xlsx") <==> EndsWith(c, ".xlsx")
  {
    var name := p + c;
    if |c| >= 5 {
      assert name[|name| - 5..] == c[|c| - 5..];
    } else if |name| >= 5 {
      var j := 4 - |c|;
      assert name[|name| - 5..][j] == name[|p| - 1] == '-';
      assert ".xlsx"[j] != '-';
    }
  }

  /** The output name is the timestamp, a dash and the cleaned name, with
      `.xlsx` added only when the cleaned name does not end so; every
      character of it is in `[a-zA-Z0-9.-_]`. */
  lemma ExportFileNameShape(timestamp: nat, filename: string)
    ensures var r, prefix, clean := ExportFileName(timestamp, filename), NatToString(timestamp) + "-", CleanFileName(filename);
      && EndsWith(r, ".xlsx")
      && r == prefix + clean + (if EndsWith(clean, ".xlsx") then "" else ".xlsx")
      && forall k :: 0 <= k < |r| ==> IsFileNameChar(r[k])
  {
    var prefix, clean := NatToString(timestamp) + "-", CleanFileName(filename);
    EndsWithAfterDash(prefix, clean);
    var r := ExportFileName(timestamp, filename);
    var ts := NatToString(timestamp);
    forall k | 0 <= k < |r| ensures IsFileNameChar(r[k]) {
      if k < |ts| {
        assert r[k] == ts[k];
      } else if k == |ts| {
        assert r[k] == '-';
      } else if k < |prefix| + |clean| {
        assert r[k] == clean[k - |prefix|];
      } else {
        assert r[k] == ".xlsx"[k - |prefix| - |clean|];
      }
    }
    if !EndsWith(r[..|prefix| + |clean|], ".xlsx") {
      assert r[|r| - 5..] == ".xlsx";
    }
  }

  /** Cleaning the name twice is cleaning it once, so a cleaned name gives
      the same output name. */
  lemma ExportFileNameOfClean(timestamp: nat, filename: string)
    ensures ExportFileName(timestamp, CleanFileName(filename)) == ExportFileName(timestamp, filename)
  {
    CleanFileNameIdempotent(filename);
  }

  // ---------------------------------------------------------------------------
  // Create and process
  // ---------------------------------------------------------------------------

  /** Each row of the import is kept as often as the table stores it. */
  lemma {:induction false} RowsOfImportCounts(rows: seq<FileImportRow>, imp: Id, x: FileImportRow)
    requires x.fileImport == imp
    ensures multiset(RowsOfImport(rows, imp))[x] == multiset(rows)[x]
  {
    if rows != [] {
      RowsOfImportCounts(rows[1..], imp, x);
      assert rows == [rows[0]] + rows[1..];
    }
  }

  /** The rows of an import keep the stored order: those of a later part of
      the table come after those of an earlier part. */
  lemma {:induction false} RowsOfImportAppend(a: seq<FileImportRow>, b: seq<FileImportRow>, imp: Id)
    ensures RowsOfImport(a + b, imp) == RowsOfImport(a, imp) + RowsOfImport(b, imp)
  {
    if a == [] {
      assert a + b == b;
    } else {
      assert (a + b)[0] == a[0] && (a + b)[1..] == a[1..] + b;
      RowsOfImportAppend(a[1..], b, imp);
      var head := if a[0].fileImport == imp then [a[0]] else [];
      assert RowsOfImport(a, imp) == head + RowsOfImport(a[1..], imp);
      assert RowsOfImport(a + b, imp) == head + RowsOfImport(a[1..] + b, imp);
      assert head + (RowsOfImport(a[1..], imp) + RowsOfImport(b, imp))
          == (head + RowsOfImport(a[1..], imp)) + RowsOfImport(b, imp);
    }
  }

  /** An export is created exactly for an existing import and a name that is
      not blank, stored trimmed, Pending, with nothing exported yet. */
  lemma CreateExportRule(imports: map<Id, FileImport>, user: User, fileImportId: Option<Id>, filename: string)
    ensures CreateExport(imports, user, fileImportId, filename).Success? <==>
      fileImportId.Some? && fileImportId.value in imports && Trim(filename) != []
    ensures (fileImportId.None? || filename == []) ==> CreateExport(imports, user, fileImportId, filename) == Failure(ExportArgsRequired)
    ensures CreateExport(imports, user, fileImportId, filename).Success? ==>
      var e := CreateExport(imports, user, fileImportId, filename).value;
      e.fileImport == fileImportId.value && e.filename == Trim(filename) && e.status == ExportPending
      && e.recordsExported == 0 && e.errors == [] && e.createdBy == user.memberId
  {
    if Trim(filename) != [] {
      assert filename != [];
    }
  }

  /** Once processing starts, the export ends Completed, with its file path
      and one record per audit row of its import, or Failed with the error
      as its only message; no other export changes. */
  lemma ProcessLifecycle(exports: map<Id, FileExport>, imports: map<Id, FileImport>, importRows: seq<FileImportRow>,
                         clubs: map<Id, Club>, members: map<Id, Member>, user: Option<User>, id: Id,
                         timestamp: nat, fault: Option<string>)
    requires RoleOf(user) in ExportRoles && id in exports
    ensures var (r, exports') := ProcessExport(exports, imports, importRows, clubs, members, user, id, true, timestamp, fault);
      var e, e' := exports[id], exports'[id];
      && id in exports' && exports'.Keys == exports.Keys
      && (forall x :: x in exports && x != id ==> exports'[x] == exports[x])
      && e'.fileImport == e.fileImport && e'.filename == e.filename && e'.createdBy == e.createdBy
      && (e'.status == ExportCompleted || e'.status == ExportFailed)
      && (e'.status == ExportCompleted <==> r.Success?)
      && (e'.status == ExportCompleted <==> e.fileImport in imports && fault.None?)
      && (r.Success? ==>
            && |r.value| == |RowsOfImport(importRows, e.fileImport)| == e'.recordsExported
            && e'.filePath == ExportDirectory + ExportFileName(timestamp, e.filename)
            && e'.errors == e.errors)
      && (r.Failure? ==>
            && r.error == ProcessFailed
            && e'.errors == [if e.fileImport !in imports then MissingImportMessage else fault.value]
            && e'.recordsExported == e.recordsExported && e'.filePath == e.filePath)
  {
  }

  /** A request that is not let through changes nothing. */
  lemma ProcessRefused(exports: map<Id, FileExport>, imports: map<Id, FileImport>, importRows: seq<FileImportRow>,
                       clubs: map<Id, Club>, members: map<Id, Member>, user: Option<User>, id: Id,
                       xlsxAvailable: bool, timestamp: nat, fault: Option<string>)
    requires RoleOf(user) !in ExportRoles || id !in exports || !xlsxAvailable
    ensures var (r, exports') := ProcessExport(exports, imports, importRows, clubs, members, user, id, xlsxAvailable, timestamp, fault);
      && exports' == exports
      && r == Failure(if RoleOf(user) !in ExportRoles then ProcessForbidden
                      else if id !in exports then ExportNotFound
                      else ExcelUnavailable)
  {
  }
}
