/** The field extractor: a spreadsheet row is a map from column header to
    cell text (the sheet reader fills empty cells with ''), and each logical
    field is read by trying a fixed list of header spellings in order. */
module Fields {
  import opened Wrappers
  import opened Text

  type Row = map<string, string>

  /** The cell under `key` exists and is not blank after trimming. */
  predicate Present(row: Row, key: string) {
    key in row && !IsBlank(row[key])
  }

  /** `getField` of server/routes/fileImports.js: the trimmed value of the
      first header spelling whose cell is present, or '' when none is. */
  function GetField(row: Row, variants: seq<string>): (r: string)
    ensures r == [] <==> forall k :: 0 <= k < |variants| ==> !Present(row, variants[k])
    ensures r != [] ==>
      exists k :: 0 <= k < |variants| && Present(row, variants[k]) && r == Trim(row[variants[k]])
               && forall j :: 0 <= j < k ==> !Present(row, variants[j])
  {
    if variants == [] then []
    else if Present(row, variants[0]) then Trim(row[variants[0]])
    else GetField(row, variants[1..])
  }

  /** `getField` of server/routes/uploads.js: the same search, but the cell
      is returned as it is, untrimmed. */
  function GetRawField(row: Row, variants: seq<string>): (r: string)
    ensures Trim(r) == GetField(row, variants)
  {
    if variants == [] then []
    else if Present(row, variants[0]) then row[variants[0]]
    else GetRawField(row, variants[1..])
  }

  /** The trimmed value of a field is itself trimmed, so extracting twice
      changes nothing. */
  lemma GetFieldIsTrimmed(row: Row, variants: seq<string>)
    ensures Trim(GetField(row, variants)) == GetField(row, variants)
  {
    if GetField(row, variants) != [] {
      var k :| 0 <= k < |variants| && Present(row, variants[k]) && GetField(row, variants) == Trim(row[variants[k]]);
      TrimIdempotent(row[variants[k]]);
    }
  }

  // ---------------------------------------------------------------------------
  // Header spellings of the import (server/routes/fileImports.js)
  // ---------------------------------------------------------------------------

  const RowIdKeys: seq<string> := ["RowID", "Row ID", "rowId", "ID"]
  const ClubNameKeys: seq<string> := ["ClubName", "Club Name", "clubName"]
  const CharterNumberKeys: seq<string> := ["CharterNumber", "Charter Number", "charterNumber"]
  const ClubStateKeys: seq<string> := ["ClubState", "Club State", "State", "clubState"]
  const ContactIdKeys: seq<string> := ["NFRWContact", "NFRW Contact", "nfrwContact"]
  const PrefixKeys: seq<string> := ["Prefix", "prefix"]
  const FirstNameKeys: seq<string> := ["FirstName", "First Name", "firstName"]
  const MiddleNameKeys: seq<string> := ["MiddleName", "Middle Name", "middleName"]
  const LastNameKeys: seq<string> := ["LastName", "Last Name", "lastName"]
  const BadgeNicknameKeys: seq<string> := ["BadgeNickName", "Badge Nickname", "badgeNickname"]
  const SuffixKeys: seq<string> := ["Suffix", "suffix"]
  const StreetAddressKeys: seq<string> := ["Address_Line_1", "Address Line 1", "Address1", "streetAddress"]
  const Address2Keys: seq<string> := ["Address_Line_2", "Address Line 2", "Address2", "address2"]
  const CityKeys: seq<string> := ["City", "city"]
  const StateKeys: seq<string> := ["State", "state"]
  const ZipKeys: seq<string> := ["Zip", "ZipCode", "zip"]
  const PhoneKeys: seq<string> := ["PrimaryPhone", "Primary Phone", "Phone", "phone"]
  const PhoneTypeKeys: seq<string> := ["PhoneType", "Phone Type", "phoneType"]
  const EmailKeys: seq<string> := ["Email", "email"]
  const ExpirationKeys: seq<string> := ["MemberExpirationDate", "Member Expiration Date", "Expiration", "membershipExpiration"]
  const MembershipTypeKeys: seq<string> := ["MembershipType", "Membership Type", "membershipType"]
  const AssociatePrimaryKeys: seq<string> := ["Associate_PrimaryMbrInfo", "Associate Primary Member", "associatePrimary"]
  const GenderKeys: seq<string> := ["Gender", "gender"]
  const OccupationKeys: seq<string> := ["Occupation", "occupation"]
  const EmployerKeys: seq<string> := ["Employer", "employer"]
  const DateOfBirthKeys: seq<string> := ["DateOfBirth", "Date Of Birth", "DOB", "dateOfBirth"]
  const DeceasedKeys: seq<string> := ["Deceased?", "Deceased", "deceased"]
  const ExceptionKeys: seq<string> := ["Exception", "exception"]
  const ExportSetKeys: seq<string> := ["ExportSetID", "ExportSetId", "exportSetId", "exportSetID", "Export Set ID", "ExportSet"]

  /** Every field the import reads from a row, as extracted text. */
  datatype RowFields = RowFields(
    rowId: string,
    clubName: string,
    charterNumber: string,
    clubState: string,
    nfrwContactId: string,
    prefix: string,
    firstName: string,
    middleName: string,
    lastName: string,
    badgeNickname: string,
    suffix: string,
    streetAddress: string,
    address2: string,
    city: string,
    state: string,
    zip: string,
    phone: string,
    phoneType: string,
    email: string,
    membershipExpiration: string,
    membershipType: string,
    associatePrimaryMember: string,
    gender: string,
    occupation: string,
    employer: string,
    dateOfBirth: string,
    deceased: string)

  function Extract(row: Row): RowFields {
    RowFields(
      GetField(row, RowIdKeys), GetField(row, ClubNameKeys), GetField(row, CharterNumberKeys),
      GetField(row, ClubStateKeys), GetField(row, ContactIdKeys), GetField(row, PrefixKeys),
      GetField(row, FirstNameKeys), GetField(row, MiddleNameKeys), GetField(row, LastNameKeys),
      GetField(row, BadgeNicknameKeys), GetField(row, SuffixKeys), GetField(row, StreetAddressKeys),
      GetField(row, Address2Keys), GetField(row, CityKeys), GetField(row, StateKeys),
      GetField(row, ZipKeys), GetField(row, PhoneKeys), GetField(row, PhoneTypeKeys),
      GetField(row, EmailKeys), GetField(row, ExpirationKeys), GetField(row, MembershipTypeKeys),
      GetField(row, AssociatePrimaryKeys), GetField(row, GenderKeys), GetField(row, OccupationKeys),
      GetField(row, EmployerKeys), GetField(row, DateOfBirthKeys), GetField(row, DeceasedKeys))
  }

  /** The ExportSetID of an uploaded sheet: read from the first row only, from
      the first header spelling whose cell is non-empty (untrimmed test), and
      then trimmed; none when the sheet is empty or no spelling has a value. */
  function ExportSetIdOf(rows: seq<Row>): (r: Option<string>)
    ensures rows == [] ==> r == None
    ensures r.Some? ==> exists k :: 0 <= k < |ExportSetKeys| && ExportSetKeys[k] in rows[0]
                          && rows[0][ExportSetKeys[k]] != [] && r.value == Trim(rows[0][ExportSetKeys[k]])
                          && forall j :: 0 <= j < k ==> ExportSetKeys[j] !in rows[0] || rows[0][ExportSetKeys[j]] == []
    ensures rows != [] && r == None ==>
      forall k :: 0 <= k < |ExportSetKeys| ==> ExportSetKeys[k] !in rows[0] || rows[0][ExportSetKeys[k]] == []
  {
    if rows == [] then None else FirstNonEmpty(rows[0], ExportSetKeys)
  }

  function FirstNonEmpty(row: Row, keys: seq<string>): (r: Option<string>)
    ensures r.Some? ==> exists k :: 0 <= k < |keys| && keys[k] in row && row[keys[k]] != [] && r.value == Trim(row[keys[k]])
                          && forall j :: 0 <= j < k ==> keys[j] !in row || row[keys[j]] == []
    ensures r == None ==> forall k :: 0 <= k < |keys| ==> keys[k] !in row || row[keys[k]] == []
  {
    if keys == [] then None
    else if keys[0] in row && row[keys[0]] != [] then Some(Trim(row[keys[0]]))
    else FirstNonEmpty(row, keys[1..])
  }

  // ---------------------------------------------------------------------------
  // Header spellings of the older importer (server/routes/uploads.js)
  // ---------------------------------------------------------------------------

  const UploadFirstKeys: seq<string> := ["First Name", "FirstName", "first_name", "first", "Given Name", "GivenName", "First"]
  const UploadLastKeys: seq<string> := ["Last Name", "LastName", "last_name", "last", "Surname", "Last"]
  const UploadEmailKeys: seq<string> := ["Email", "email", "E-mail", "E-mail Address"]
  const UploadPhoneKeys: seq<string> := ["Phone", "phone", "Phone Number", "Mobile", "Mobile Phone"]
  const UploadPrefixKeys: seq<string> := ["Prefix", "Title", "Salutation"]
  const UploadMiddleKeys: seq<string> := ["Middle Name", "MiddleName", "middle_name", "Middle"]
  const UploadBadgeKeys: seq<string> := ["Badge Nickname", "Badge", "Nickname"]
  const UploadSuffixKeys: seq<string> := ["Suffix", "Jr", "Sr"]
  const UploadStreetKeys: seq<string> := ["Street Address", "Address", "Address1", "address", "Street"]
  const UploadAddress2Keys: seq<string> := ["Address2", "Address 2", "Address Line 2", "Addr2"]
  const UploadCityKeys: seq<string> := ["City", "Town"]
  const UploadStateKeys: seq<string> := ["State", "Region", "Province"]
  const UploadZipKeys: seq<string> := ["Zip", "ZipCode", "Postal Code", "PostalCode", "Postcode"]
  const UploadMembershipTypeKeys: seq<string> := ["Membership Type", "membershipType", "Type"]
  const UploadExpirationKeys: seq<string> := ["Membership Expiration", "membershipExpiration", "Expiration", "Expiry", "Membership Expiry"]
  const UploadOccupationKeys: seq<string> := ["Occupation", "Job", "Job Title", "Title"]
  const UploadEmployerKeys: seq<string> := ["Employer", "Company", "Organization", "Organisation"]
  const UploadDeceasedKeys: seq<string> := ["Deceased", "Dead", "Is Deceased", "Died"]
}
