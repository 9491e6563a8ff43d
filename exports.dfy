/** Exports of an import back to the NFRW spreadsheet layout,
    server/routes/fileExports.js: the MM/DD/YYYY date text, the mapping of
    an audit row with its club and member to the 34 output columns, the
    output file name, and the export record's lifecycle (Pending when
    created, Processing while the rows are gathered, then Completed or
    Failed). Writing the workbook is left to a parameter: the error it
    throws, if any. */
module ExportRoutes {
  import opened Wrappers
  import opened Text
  import opened Models
  import opened Store

  const ExportArgsRequired: ApiError := ApiError(400, "fileImportId and filename are required")
  const ExportImportNotFound: ApiError := ApiError(404, "File import not found")
  const ExportCreateFailed: ApiError := ApiError(500, "Failed to create file export")
  const ExportNotFound: ApiError := ApiError(404, "File export not found")
  const ExportDeleteForbidden: ApiError := ApiError(403, "Insufficient permissions")
  const ProcessForbidden: ApiError := ApiError(403, "Insufficient permissions to process exports")
  const ExcelUnavailable: ApiError := ApiError(500, "Excel processing library not available")
  const ProcessFailed: ApiError := ApiError(500, "Failed to process export")

  /** The roles allowed to delete and process exports, legacy spellings
      included. */
  const ExportRoles: seq<string> := [SystemAdmin, ClubAdmin, "System", "Club"]

  /** What reading `fileExport.fileImport._id` throws when the import the
      export points at is gone. */
  const MissingImportMessage: string := "Cannot read properties of null (reading '_id')"

  const ExportDirectory: string := "/uploads/nfrw_export/"

  // ---------------------------------------------------------------------------
  // formatDate
  // ---------------------------------------------------------------------------

  /** `formatDate`: '' for no date, otherwise month/day/year with the month
      and day padded to two digits. */
  function FormatDate(d: Option<Date>): string {
    if d.None? then ""
    else PadTwo(NatToString(d.value.month)) + "/" + PadTwo(NatToString(d.value.day)) + "/" + NatToString(d.value.year)
  }

  // ---------------------------------------------------------------------------
  // The row mapping
  // ---------------------------------------------------------------------------

  /** The column headers, in the order `json_to_sheet` writes them. */
  const ExportColumns: seq<string> := [
    "RowID", "Exception", "NFRWContact", "ClubName", "CharterNumber", "ClubState",
    "Prefix", "LastName", "FirstName", "MiddleName", "BadgeNickName", "Suffix",
    "Address_Line_1", "Address_Line_2", "City", "State", "Zip", "PrimaryPhone",
    "PhoneType", "Email", "MemberExpirationDate", "MembershipType", "Associate_PrimaryMbrInfo",
    "Gender", "Occupation", "Employer", "PaidThruYear", "ReportNumber", "CheckNumber",
    "AmountPaid", "DateOfBirth", "Deceased?", "LocalClubMemberID", "ExportSetID"]

  /** The positions filled from the club, from the member, and never filled. */
  const ClubColumns: set<nat> := {3, 4, 5}
  const MemberColumns: set<nat> := {2, 6, 7, 8, 9, 10, 11, 12, 13, 14, 15, 16, 17, 18, 19, 20, 21, 22, 23, 24, 25, 30}
  const UnmappedColumns: set<nat> := {26, 27, 28, 29, 32}
  const DeceasedColumn: nat := 31
  const ExportSetColumn: nat := 33

  /** `club?.f || ''`. */
  function OfClub(c: Option<Club>, f: Club -> string): string {
    if c.Some? then f(c.value) else ""
  }

  /** `member?.f || ''`. */
  function OfMember(m: Option<Member>, f: Member -> string): string {
    if m.Some? then f(m.value) else ""
  }

  /** `formatDate(member?.membershipExpiration)`. */
  function ExpirationText(m: Option<Member>): string {
    if m.Some? then FormatDate(m.value.membershipExpiration) else FormatDate(None)
  }

  /** `formatDate(member?.dateOfBirth)`. */
  function BirthText(m: Option<Member>): string {
    if m.Some? then FormatDate(m.value.dateOfBirth) else FormatDate(None)
  }

  /** The output row for one audit row, its populated club and member (none
      when the reference is unset or dangling) and the import's export set. */
  function ExportRowOf(row: FileImportRow, club: Option<Club>, member: Option<Member>, exportSetId: Option<string>): (r: seq<string>)
    ensures |r| == |ExportColumns|
  {
    [ row.rowId,
      row.exception,
      OfMember(member, (x: Member) => x.nfrwContactId),
      OfClub(club, (c: Club) => c.name),
      OfClub(club, (c: Club) => c.charterNumber),
      OfClub(club, (c: Club) => c.state),
      OfMember(member, (x: Member) => x.prefix),
      OfMember(member, (x: Member) => x.lastName),
      OfMember(member, (x: Member) => x.firstName),
      OfMember(member, (x: Member) => x.middleName),
      OfMember(member, (x: Member) => x.badgeNickname),
      OfMember(member, (x: Member) => x.suffix),
      OfMember(member, (x: Member) => x.streetAddress),
      OfMember(member, (x: Member) => x.address2),
      OfMember(member, (x: Member) => x.city),
      OfMember(member, (x: Member) => x.state),
      OfMember(member, (x: Member) => x.zip),
      OfMember(member, (x: Member) => x.phone),
      OfMember(member, (x: Member) => if x.phoneType.Some? then x.phoneType.value.Name() else ""),
      OfMember(member, (x: Member) => x.email),
      ExpirationText(member),
      OfMember(member, (x: Member) => x.membershipType.Name()),
      OfMember(member, (x: Member) => x.associatePrimaryMember),
      OfMember(member, (x: Member) => x.gender),
      OfMember(member, (x: Member) => x.occupation),
      OfMember(member, (x: Member) => x.employer),
      "", "", "", "",
      BirthText(member),
      if member.Some? && member.value.deceased == Some(true) then "Yes" else "No",
      "",
      exportSetId.GetOr("")
    ]
  }

  /** `.populate(...)`: the record a reference points at, if it is still
      stored. */
  function Populate<T>(table: map<Id, T>, ref: Option<Id>): (r: Option<T>)
    ensures r.Some? <==> ref.Some? && ref.value in table
    ensures r.Some? ==> r.value == table[ref.value]
  {
    if ref.Some? && ref.value in table then Some(table[ref.value]) else None
  }

  function RowOutput(row: FileImportRow, clubs: map<Id, Club>, members: map<Id, Member>, exportSetId: Option<string>): seq<string> {
    ExportRowOf(row, Populate(clubs, row.club), Populate(members, row.member), exportSetId)
  }

  /** `FileImportRow.find({ fileImport })` sorted by creation: the audit rows
      of one import, in the order they were written (the table holds them in
      creation order); ExportProperties.RowsOfImportCounts and
      RowsOfImportAppend state that each is kept as often as it is stored
      and in the stored order. */
  function RowsOfImport(rows: seq<FileImportRow>, imp: Id): (r: seq<FileImportRow>)
    ensures |r| <= |rows|
    ensures forall x :: x in r <==> x in rows && x.fileImport == imp
  {
    if rows == [] then []
    else (if rows[0].fileImport == imp then [rows[0]] else []) + RowsOfImport(rows[1..], imp)
  }

  // ---------------------------------------------------------------------------
  // The output file name
  // ---------------------------------------------------------------------------

  /** `${timestamp}-${cleanFilename}`, with `.xlsx` added unless it already
      ends so. */
  function ExportFileName(timestamp: nat, filename: string): string {
    var name := NatToString(timestamp) + "-" + CleanFileName(filename);
    if EndsWith(name, ".xlsx") then name else name + ".xlsx"
  }

  // ---------------------------------------------------------------------------
  // POST /, DELETE /:id
  // ---------------------------------------------------------------------------

  /** What the create handler stores, or why it refuses. A name of spaces
      passes the presence check but is empty once the schema trims it, so
      the save fails. */
  function CreateExport(imports: map<Id, FileImport>, user: User, fileImportId: Option<Id>, filename: string): Result<FileExport, ApiError> {
    if fileImportId.None? || filename == [] then Failure(ExportArgsRequired)
    else if fileImportId.value !in imports then Failure(ExportImportNotFound)
    else if Trim(filename) == [] then Failure(ExportCreateFailed)
    else Success(FileExport(fileImportId.value, Trim(filename), "", ExportPending, user.memberId, 0, []))
  }

  function DeleteExport(exports: map<Id, FileExport>, user: Option<User>, id: Id): Option<ApiError> {
    if RoleOf(user) !in ExportRoles then Some(ExportDeleteForbidden)
    else if id !in exports then Some(ExportNotFound)
    else None
  }

  // ---------------------------------------------------------------------------
  // POST /:id/process
  // ---------------------------------------------------------------------------

  /** The output rows of an export: one per audit row of its import. */
  function ExportRows(rows: seq<FileImportRow>, clubs: map<Id, Club>, members: map<Id, Member>,
                      exportSetId: Option<string>): (out: seq<seq<string>>)
    ensures |out| == |rows|
    ensures forall k :: 0 <= k < |rows| ==> out[k] == RowOutput(rows[k], clubs, members, exportSetId)
  {
    seq(|rows|, k requires 0 <= k < |rows| => RowOutput(rows[k], clubs, members, exportSetId))
  }

  /** What processing answers (the rows written) and the export table
      afterwards. `fault` is the error writing the workbook throws, if any. */
  function ProcessExport(exports: map<Id, FileExport>, imports: map<Id, FileImport>, importRows: seq<FileImportRow>,
                         clubs: map<Id, Club>, members: map<Id, Member>, user: Option<User>, id: Id,
                         xlsxAvailable: bool, timestamp: nat, fault: Option<string>)
    : (Result<seq<seq<string>>, ApiError>, map<Id, FileExport>)
  {
    if RoleOf(user) !in ExportRoles then (Failure(ProcessForbidden), exports)
    else if id !in exports then (Failure(ExportNotFound), exports)
    else if !xlsxAvailable then (Failure(ExcelUnavailable), exports)
    else
      var e := exports[id];
      if e.fileImport !in imports then
        (Failure(ProcessFailed), exports[id := e.(status := ExportFailed, errors := [MissingImportMessage])])
      else if fault.Some? then
        (Failure(ProcessFailed), exports[id := e.(status := ExportFailed, errors := [fault.value])])
      else
        var out := ExportRows(RowsOfImport(importRows, e.fileImport), clubs, members, imports[e.fileImport].exportSetId);
        (Success(out), exports[id := e.(status := ExportCompleted,
                                        filePath := ExportDirectory + ExportFileName(timestamp, e.filename),
                                        recordsExported := |out|)])
  }

  // ---------------------------------------------------------------------------
  // The handlers over the database
  // ---------------------------------------------------------------------------

  method CreateExportM(db: Database, user: User, fileImportId: Option<Id>, filename: string)
    returns (r: Result<FileExport, ApiError>)
    modifies db`exports, db`nextId
    ensures r == CreateExport(db.imports, user, fileImportId, filename)
    ensures r.Success? ==> db.exports == old(db.exports)[old(db.nextId) := r.value] && db.nextId == old(db.nextId) + 1
    ensures r.Failure? ==> db.exports == old(db.exports) && db.nextId == old(db.nextId)
  {
    if fileImportId.None? || filename == [] {
      return Failure(ExportArgsRequired);
    }
    if fileImportId.value !in db.imports {
      return Failure(ExportImportNotFound);
    }
    var name := Trim(filename);
    if name == [] {
      return Failure(ExportCreateFailed);
    }
    var e := FileExport(fileImportId.value, name, "", ExportPending, user.memberId, 0, []);
    db.exports := db.exports[db.nextId := e];
    db.nextId := db.nextId + 1;
    return Success(e);
  }

  method DeleteExportM(db: Database, user: Option<User>, id: Id) returns (err: Option<ApiError>)
    modifies db`exports
    ensures err == DeleteExport(old(db.exports), user, id)
    ensures db.exports == if err.None? then old(db.exports) - {id} else old(db.exports)
  {
    err := DeleteExport(db.exports, user, id);
    if err.None? {
      db.exports := db.exports - {id};
    }
  }

  /** The row loop: one output row pushed per audit row. */
  method GatherRows(rows: seq<FileImportRow>, clubs: map<Id, Club>, members: map<Id, Member>, exportSetId: Option<string>)
    returns (out: seq<seq<string>>)
    ensures out == ExportRows(rows, clubs, members, exportSetId)
  {
    out := [];
    for i := 0 to |rows|
      invariant |out| == i
      invariant forall k :: 0 <= k < i ==> out[k] == RowOutput(rows[k], clubs, members, exportSetId)
    {
      var club := Populate(clubs, rows[i].club);
      var member := Populate(members, rows[i].member);
      out := out + [ExportRowOf(rows[i], club, member, exportSetId)];
    }
  }

  method ProcessExportM(db: Database, user: Option<User>, id: Id, xlsxAvailable: bool, timestamp: nat, fault: Option<string>)
    returns (r: Result<seq<seq<string>>, ApiError>)
    modifies db`exports
    ensures (r, db.exports) ==
      ProcessExport(old(db.exports), db.imports, db.importRows, db.clubs, db.members, user, id, xlsxAvailable, timestamp, fault)
  {
    if RoleOf(user) !in ExportRoles {
      return Failure(ProcessForbidden);
    }
    if id !in db.exports {
      return Failure(ExportNotFound);
    }
    if !xlsxAvailable {
      return Failure(ExcelUnavailable);
    }
    var exports, e := db.exports, db.exports[id];
    db.exports := exports[id := e.(status := ExportProcessing)];
    if e.fileImport !in db.imports {
      db.exports := exports[id := e.(status := ExportFailed, errors := [MissingImportMessage])];
      return Failure(ProcessFailed);
    }
    var rows := GatherRows(RowsOfImport(db.importRows, e.fileImport), db.clubs, db.members, db.imports[e.fileImport].exportSetId);
    if fault.Some? {
      db.exports := exports[id := e.(status := ExportFailed, errors := [fault.value])];
      return Failure(ProcessFailed);
    }
    var fullFilename := ExportFileName(timestamp, e.filename);
    db.exports := exports[id := e.(status := ExportCompleted, filePath := ExportDirectory + fullFilename,
                                      recordsExported := |rows|)];
    return Success(rows);
  }
}
