/** The normaliser: turns extracted cell text into the stored values. No rule
    here fails; text it cannot read becomes "absent". */
module Normalize {
  import opened Wrappers
  import opened Text
  import opened Models

  /** `new Date(text)` where the result is a valid date, none where it is
      `Invalid Date`. JavaScript's date-text grammar is not modelled: the
      importers take the parser as a parameter. */
  type DateParser = string -> Option<Date>

  /** A date read from a cell; an empty or unreadable cell gives none. */
  function ParseDateCell(raw: string, parse: DateParser): (d: Option<Date>)
    ensures raw == [] ==> d == None
    ensures raw != [] ==> d == parse(raw)
  {
    if raw == [] then None else parse(raw)
  }

  /** Membership-type bucketing, case-insensitive and in this priority:
      'honor', then 'assoc', then 'inactive', else Full. */
  function MembershipTypeOf(raw: string): MembershipType {
    var mt := ToLower(raw);
    if Contains(mt, "honor") then Honorary
    else if Contains(mt, "assoc") then Associate
    else if Contains(mt, "inactive") then Inactive
    else Full
  }

  /** The deceased flag of the import: yes, y, true or 1 in any case. */
  function DeceasedOf(raw: string): bool {
    ToLower(raw) in {"yes", "y", "true", "1"}
  }

  /** The deceased flag of the older importer: a recognised yes or no, and
      no value at all for any other text. */
  function UploadDeceasedOf(raw: string): (r: Option<bool>)
    ensures r == Some(true) <==> DeceasedOf(raw)
    ensures r == Some(false) <==> ToLower(raw) in {"no", "n", "false", "0"}
  {
    var d := ToLower(raw);
    if d in {"yes", "y", "true", "1"} then Some(true)
    else if d in {"no", "n", "false", "0"} then Some(false)
    else None
  }

  /** Phone-type bucketing: cell or mobile, then work or office, then home;
      anything else, and an empty cell, gives no phone type. */
  function PhoneTypeOf(raw: string): Option<PhoneType> {
    if raw == [] then None
    else
      var pt := ToLower(raw);
      if Contains(pt, "cell") || Contains(pt, "mobile") then Some(Cell)
      else if Contains(pt, "work") || Contains(pt, "office") then Some(Work)
      else if Contains(pt, "home") then Some(Home)
      else None
  }

  // ---------------------------------------------------------------------------
  // Properties
  // ---------------------------------------------------------------------------

  /** A text is not contained where one of its characters does not occur. */
  lemma NotContainedWithout(s: string, part: string, k: nat)
    requires k < |part| && part[k] !in s
    ensures !Contains(s, part)
  {
    forall i | 0 <= i <= |s| && |part| <= |s| - i
      ensures s[i..][..|part|] != part
    {
      assert s[i..][..|part|][k] == s[i + k];
      assert s[i + k] in s;
    }
  }

  lemma ContainsItself(s: string)
    ensures Contains(s, s)
  {
    assert StartsWith(s[0..], s);
  }

  /** Upper-case letters in a name do not change what it is bucketed as. */
  lemma MembershipTypeIgnoresCase(raw: string)
    ensures MembershipTypeOf(ToLower(raw)) == MembershipTypeOf(raw)
  {
    ToLowerIdempotent(raw);
  }

  /** Reading back a stored membership type's own name gives that type, so an
      exported `MembershipType` column imports unchanged. */
  lemma MembershipTypeOfName(t: MembershipType)
    ensures MembershipTypeOf(t.Name()) == t
  {
    match t
    case Full =>
      assert ToLower("Full") == "full";
      NotContainedWithout("full", "honor", 0);
      NotContainedWithout("full", "assoc", 0);
      NotContainedWithout("full", "inactive", 0);
    case Associate =>
      assert ToLower("Associate") == "associate";
      NotContainedWithout("associate", "honor", 0);
      assert StartsWith("associate"[0..], "assoc");
    case Honorary =>
      assert ToLower("Honorary") == "honorary";
      assert StartsWith("honorary"[0..], "honor");
    case Inactive =>
      assert ToLower("Inactive") == "inactive";
      NotContainedWithout("inactive", "honor", 0);
      NotContainedWithout("inactive", "assoc", 1);
      ContainsItself("inactive");
  }

  /** The export writes the flag as 'Yes' or 'No'; reading that back gives
      the flag. */
  lemma DeceasedOfExported(b: bool)
    ensures DeceasedOf(if b then "Yes" else "No") == b
  {
    if b {
      assert ToLower("Yes") == "yes";
    } else {
      assert ToLower("No") == "no";
    }
  }

  /** Reading back a stored phone type's own name gives that type. */
  lemma PhoneTypeOfName(p: PhoneType)
    ensures PhoneTypeOf(p.Name()) == Some(p)
  {
    match p
    case Cell =>
      assert ToLower("Cell") == "cell";
      ContainsItself("cell");
    case Work =>
      assert ToLower("Work") == "work";
      NotContainedWithout("work", "cell", 0);
      NotContainedWithout("work", "mobile", 0);
      ContainsItself("work");
    case Home =>
      assert ToLower("Home") == "home";
      NotContainedWithout("home", "cell", 0);
      NotContainedWithout("home", "mobile", 2);
      NotContainedWithout("home", "work", 0);
      NotContainedWithout("home", "office", 1);
      ContainsItself("home");
  }
}
