/**
 * `parse_entity`: one entity block of text becomes a record. The lines are
 * stripped and blank ones dropped; the first line gives the entity number
 * and business name; a loop over all lines fills the doing-business-as
 * name and licence number (the last matching line wins) and the address and
 * ZIP code (the first line ending in five digits wins); the alcohol type is
 * read off the whole block; the file name is the last line.
 */
module EntityParser {
  import opened Options
  import opened Text
  import opened Records
  import opened Matchers

  /** The four fields the line loop updates. */
  datatype FieldScan = FieldScan(dba: Option<string>, license: Option<string>, address: Option<string>, zip: Option<string>)

  const NoFields := FieldScan(None, None, None, None)

  /** Python's `not x` for an optional string: `None` or empty. */
  predicate Unfilled(x: Option<string>) {
    x.None? || x.value == []
  }

  /** The doing-business-as name a line offers: the group, stripped. */
  function DbaValue(line: string): Option<string> {
    match DbaGroup(line)
    case Some(g) => Some(Strip(g))
    case None => None
  }

  /** The licence number a line offers; stripping it changes nothing. */
  function LicenseValue(line: string): (r: Option<string>)
    ensures r == LicenseGroup(line)
    ensures r.Some? ==> IsLicenseNumber(r.value)
  {
    match LicenseGroup(line)
    case Some(g) =>
      LicenseNumberStripped(g);
      Some(Strip(g))
    case None => None
  }

  /** What one line can contribute to the four fields. */
  datatype LineOffer = LineOffer(dba: Option<string>, license: Option<string>, addressLine: bool, address: string, zip: Option<string>)

  function Offer(line: string): LineOffer {
    LineOffer(DbaValue(line), LicenseValue(line), EndsInFiveDigits(line), Strip(line), ZipGroup(line))
  }

  function Offers(lines: seq<string>): (r: seq<LineOffer>)
    ensures |r| == |lines|
    ensures forall k :: 0 <= k < |lines| ==> r[k] == Offer(lines[k])
  {
    if lines == [] then [] else Offers(lines[..|lines| - 1]) + [Offer(lines[|lines| - 1])]
  }

  /** One pass of the loop body, for a line offering `o`. */
  function ScanLine(f: FieldScan, o: LineOffer): FieldScan {
    var dba := if o.dba.Some? then o.dba else f.dba;
    var license := if o.license.Some? then o.license else f.license;
    if Unfilled(f.address) && o.addressLine then
      var zip := if o.zip.Some? then o.zip else f.zip;
      FieldScan(dba, license, Some(o.address), zip)
    else
      FieldScan(dba, license, f.address, f.zip)
  }

  /** The fields after the loop has run over lines offering `offers`. */
  function Scan(offers: seq<LineOffer>): FieldScan {
    if offers == [] then NoFields
    else ScanLine(Scan(offers[..|offers| - 1]), offers[|offers| - 1])
  }

  /** The shape of the kept lines: non-empty and stripped. */
  predicate KeptShape(lines: seq<string>) {
    forall k :: 0 <= k < |lines| ==> lines[k] != [] && IsStripped(lines[k])
  }

  /** The record `parse_entity` returns for `entity`. */
  function EntityRecord(entity: string): Record {
    RecordOfLines(KeptLines(entity))
  }

  /** The record built from the kept lines of a block. */
  function RecordOfLines(lines: seq<string>): Record {
    if lines == [] then Unset
    else
      var heading := EntityHeading(lines[0]);
      var fields := Scan(Offers(lines));
      Record(
        index := None,
        entityNumber := if heading.Some? then Some(heading.value.number) else None,
        businessName := if heading.Some? then Some(Strip(heading.value.rest)) else None,
        dbaName := fields.dba,
        address := fields.address,
        zipcode := fields.zip,
        licenseNumber := fields.license,
        status := None,
        alcoholType := AlcoholType(Lower(Join(lines, " "))),
        minutesDate := None,
        applicationExpirationDate := None,
        fileName := Some(lines[|lines| - 1]))
  }

  /** `parse_entity`, with its field-by-field loop over the kept lines. */
  method ParseEntity(entity: string) returns (r: Record)
    ensures r == EntityRecord(entity)
  {
    var lines := KeptLines(entity);
    r := Unset;
    if |lines| == 0 {
      return;
    }
    var details := Lower(Join(lines, " "));
    r := r.(fileName := Some(lines[|lines| - 1]));
    var heading := EntityHeading(lines[0]);
    if heading.Some? {
      r := r.(entityNumber := Some(heading.value.number), businessName := Some(Strip(heading.value.rest)));
    }
    var fields := NoFields;
    for i := 0 to |lines|
      invariant fields == Scan(Offers(lines[..i]))
    {
      fields := ReadLine(lines[i], fields);
      OffersSnoc(lines, i);
    }
    assert lines[..|lines|] == lines;
    r := r.(dbaName := fields.dba, licenseNumber := fields.license, address := fields.address, zipcode := fields.zip);
    r := r.(alcoholType := AlcoholType(details));
    assert r == RecordOfLines(lines);
  }

  /** The body of `parse_entity`'s loop for one line: a later
      doing-business-as name or licence number replaces an earlier one, and
      the address and ZIP code are set only while the address is unset. */
  method ReadLine(line: string, f: FieldScan) returns (g: FieldScan)
    ensures g == ScanLine(f, Offer(line))
  {
    var dba, license, address, zip := f.dba, f.license, f.address, f.zip;
    var lowerLine := Lower(line);
    GuardedOffers(line);
    if Contains(lowerLine, DbaLabel) {
      var m := DbaGroup(line);
      if m.Some? {
        dba := Some(Strip(m.value));
      }
    }
    if Contains(lowerLine, LicenseLabel) {
      var m := LicenseSearch(line, 0);
      if m.Some? {
        license := Some(Strip(m.value));
      }
    }
    if Unfilled(address) && EndsInFiveDigits(line) {
      address := Some(Strip(line));
      var z := ZipGroup(line);
      if z.Some? {
        zip := z;
      }
    }
    g := FieldScan(dba, license, address, zip);
  }

  /** The loop body's `in line.lower()` tests guard the searches without
      changing what a line offers. */
  lemma GuardedOffers(line: string)
    ensures DbaValue(line) == if Contains(Lower(line), DbaLabel) && DbaGroup(line).Some? then Some(Strip(DbaGroup(line).value)) else None
    ensures LicenseValue(line) == if Contains(Lower(line), LicenseLabel) && LicenseSearch(line, 0).Some? then Some(Strip(LicenseSearch(line, 0).value)) else None
    ensures Offer(line).dba == DbaValue(line) && Offer(line).license == LicenseValue(line)
    ensures Offer(line).addressLine == EndsInFiveDigits(line) && Offer(line).address == Strip(line) && Offer(line).zip == ZipGroup(line)
  {
  }

  lemma OffersSnoc(lines: seq<string>, i: nat)
    requires i < |lines|
    ensures Scan(Offers(lines[..i + 1])) == ScanLine(Scan(Offers(lines[..i])), Offer(lines[i]))
  {
    assert lines[..i + 1][..i] == lines[..i];
    var o := Offers(lines[..i + 1]);
    assert o[..i] == Offers(lines[..i]);
  }

  // ---------------------------------------------------------------------
  // What the loop promises, line by line
  // ---------------------------------------------------------------------

  /** The doing-business-as name is the one offered by the last line that
      offers one, and `None` when no line does. */
  lemma {:induction false} ScanDbaLastWins(offers: seq<LineOffer>)
    ensures Scan(offers).dba.None? <==> forall k :: 0 <= k < |offers| ==> offers[k].dba.None?
    ensures forall k :: 0 <= k < |offers| && offers[k].dba.Some? && (forall j :: k < j < |offers| ==> offers[j].dba.None?) ==>
      Scan(offers).dba == offers[k].dba
    ensures Scan(offers).dba.Some? ==> exists k :: 0 <= k < |offers| && Scan(offers).dba == offers[k].dba
  {
    if offers != [] {
      var init := offers[..|offers| - 1];
      var n := |offers| - 1;
      ScanDbaLastWins(init);
      assert forall k :: 0 <= k < |init| ==> init[k] == offers[k];
      if offers[n].dba.Some? {
        assert Scan(offers).dba == offers[n].dba;
      } else {
        assert Scan(offers).dba == Scan(init).dba;
        if Scan(init).dba.Some? {
          var k :| 0 <= k < |init| && Scan(init).dba == init[k].dba;
          assert Scan(offers).dba == offers[k].dba;
        }
      }
    }
  }

  /** The licence number is the one offered by the last line that offers
      one, and `None` when no line does. */
  lemma {:induction false} ScanLicenseLastWins(offers: seq<LineOffer>)
    ensures Scan(offers).license.None? <==> forall k :: 0 <= k < |offers| ==> offers[k].license.None?
    ensures forall k :: 0 <= k < |offers| && offers[k].license.Some? && (forall j :: k < j < |offers| ==> offers[j].license.None?) ==>
      Scan(offers).license == offers[k].license
    ensures Scan(offers).license.Some? ==> exists k :: 0 <= k < |offers| && Scan(offers).license == offers[k].license
  {
    if offers != [] {
      var init := offers[..|offers| - 1];
      var n := |offers| - 1;
      ScanLicenseLastWins(init);
      assert forall k :: 0 <= k < |init| ==> init[k] == offers[k];
      if offers[n].license.Some? {
        assert Scan(offers).license == offers[n].license;
      } else {
        assert Scan(offers).license == Scan(init).license;
        if Scan(init).license.Some? {
          var k :| 0 <= k < |init| && Scan(init).license == init[k].license;
          assert Scan(offers).license == offers[k].license;
        }
      }
    }
  }

  /** The address and ZIP code come from the first line that ends in five
      digits and are never overwritten; without such a line both are
      `None`. */
  lemma {:induction false} ScanAddressFirstWins(offers: seq<LineOffer>)
    requires forall k :: 0 <= k < |offers| && offers[k].addressLine ==> offers[k].address != []
    ensures Scan(offers).address.None? <==> forall k :: 0 <= k < |offers| ==> !offers[k].addressLine
    ensures Scan(offers).address.None? ==> Scan(offers).zip.None?
    ensures forall k :: 0 <= k < |offers| && offers[k].addressLine && (forall j :: 0 <= j < k ==> !offers[j].addressLine) ==>
      Scan(offers).address == Some(offers[k].address) && Scan(offers).zip == offers[k].zip
  {
    if offers != [] {
      var init := offers[..|offers| - 1];
      ScanAddressFirstWins(init);
      assert forall k :: 0 <= k < |init| ==> init[k] == offers[k];
    }
  }

  // ---------------------------------------------------------------------
  // What parse_entity promises
  // ---------------------------------------------------------------------

  /** A blank block gives the record with every key `None`; any other block
      keeps its last non-blank line, stripped, as the file name, and never
      sets the index, status or dates. */
  lemma BlankEntity(entity: string)
    ensures EntityRecord(entity) == Unset <==> AllSpace(entity)
    ensures !AllSpace(entity) ==>
      var lines := KeptLines(entity);
      && lines != []
      && EntityRecord(entity).fileName == Some(lines[|lines| - 1])
      && IsStripped(lines[|lines| - 1]) && lines[|lines| - 1] != []
    ensures EntityRecord(entity).index.None? && EntityRecord(entity).status.None?
    ensures EntityRecord(entity).minutesDate.None? && EntityRecord(entity).applicationExpirationDate.None?
  {
    KeptLinesEmptyIffBlank(entity);
  }

  /** The entity number and business name come from the first kept line
      alone: both are set exactly when it starts with a digit and has a
      second character; the number is the leading digit run, except that an
      all-digit line gives its last digit to the name; the name is the rest
      of the line after the number and its dot, stripped, and never
      empty. */
  lemma HeadingFields(lines: seq<string>)
    requires KeptShape(lines)
    ensures RecordOfLines(lines).entityNumber.Some? <==> RecordOfLines(lines).businessName.Some?
    ensures RecordOfLines(lines).entityNumber.Some? <==> lines != [] && |lines[0]| >= 2 && IsDigit(lines[0][0])
    ensures RecordOfLines(lines).entityNumber.Some? ==>
      var first := lines[0];
      var number := RecordOfLines(lines).entityNumber.value;
      && number != [] && AllDigits(number)
      && RecordOfLines(lines).businessName.value != []
      && number == LeadingNumber(first)
      && RecordOfLines(lines).businessName.value == LeadingName(first)
  {
    if lines != [] {
      var heading := EntityHeading(lines[0]);
      assert RecordOfLines(lines).entityNumber == if heading.Some? then Some(heading.value.number) else None;
      assert RecordOfLines(lines).businessName == if heading.Some? then Some(Strip(heading.value.rest)) else None;
      HeadingOfStrippedLine(lines[0]);
    }
  }

  /** The doing-business-as name comes from the last kept line that
      carries one, and is `None` when no line does. */
  lemma DbaField(lines: seq<string>)
    ensures forall k :: 0 <= k < |lines| && DbaValue(lines[k]).Some? && (forall j :: k < j < |lines| ==> DbaValue(lines[j]).None?) ==>
      RecordOfLines(lines).dbaName == DbaValue(lines[k])
    ensures RecordOfLines(lines).dbaName.None? <==> forall k :: 0 <= k < |lines| ==> DbaValue(lines[k]).None?
  {
    var offers := Offers(lines);
    ScanDbaLastWins(offers);
    OfferedDbas(lines);
    assert RecordOfLines(lines).dbaName == Scan(offers).dba;
  }

  lemma OfferedDbas(lines: seq<string>)
    ensures forall k :: 0 <= k < |lines| ==> Offers(lines)[k].dba == DbaValue(lines[k])
  {
    forall k | 0 <= k < |lines|
      ensures Offers(lines)[k].dba == DbaValue(lines[k])
    {
      assert Offers(lines)[k] == Offer(lines[k]);
    }
  }

  /** The licence number comes from the last kept line that carries one,
      and is `None` when no line does. */
  lemma LicenseField(lines: seq<string>)
    ensures forall k :: 0 <= k < |lines| && LicenseGroup(lines[k]).Some? && (forall j :: k < j < |lines| ==> LicenseGroup(lines[j]).None?) ==>
      RecordOfLines(lines).licenseNumber == LicenseGroup(lines[k])
    ensures RecordOfLines(lines).licenseNumber.None? <==> forall k :: 0 <= k < |lines| ==> LicenseGroup(lines[k]).None?
  {
    var offers := Offers(lines);
    OfferedLicences(lines);
    ScanLicenseLastWins(offers);
    assert RecordOfLines(lines).licenseNumber == Scan(offers).license;
  }

  /** The licence number keeps its case and holds only `[A-Za-z0-9_-]`. */
  lemma LicenseFieldChars(lines: seq<string>)
    ensures RecordOfLines(lines).licenseNumber.Some? ==> IsLicenseNumber(RecordOfLines(lines).licenseNumber.value)
  {
    var offers := Offers(lines);
    OfferedLicences(lines);
    ScanLicenseLastWins(offers);
    if RecordOfLines(lines).licenseNumber.Some? {
      var k :| 0 <= k < |offers| && RecordOfLines(lines).licenseNumber == offers[k].license;
    }
  }

  lemma OfferedLicences(lines: seq<string>)
    ensures forall k :: 0 <= k < |lines| ==> Offers(lines)[k].license == LicenseGroup(lines[k])
    ensures forall k :: 0 <= k < |lines| && Offers(lines)[k].license.Some? ==> IsLicenseNumber(Offers(lines)[k].license.value)
  {
    forall k | 0 <= k < |lines|
      ensures Offers(lines)[k].license == LicenseGroup(lines[k])
    {
      assert Offers(lines)[k] == Offer(lines[k]);
    }
  }

  /** The first of `lines` at or after `from` that ends in five digits. */
  function FirstAddressLine(lines: seq<string>, from: nat): (r: Option<nat>)
    requires from <= |lines|
    ensures r.Some? ==> from <= r.value < |lines| && EndsInFiveDigits(lines[r.value])
    ensures r.Some? ==> forall j :: from <= j < r.value ==> !EndsInFiveDigits(lines[j])
    ensures r.None? <==> forall k :: from <= k < |lines| ==> !EndsInFiveDigits(lines[k])
    decreases |lines| - from
  {
    if from == |lines| then None
    else if EndsInFiveDigits(lines[from]) then Some(from)
    else FirstAddressLine(lines, from + 1)
  }

  /** The address is the first kept line ending in five digits, and the ZIP
      code is that line's first standalone five-digit group; later lines
      never replace either. Without such a line both are `None`. */
  lemma AddressFields(lines: seq<string>)
    requires KeptShape(lines)
    ensures var first := FirstAddressLine(lines, 0);
      && RecordOfLines(lines).address == (if first.Some? then Some(lines[first.value]) else None)
      && RecordOfLines(lines).zipcode == (if first.Some? then ZipGroup(lines[first.value]) else None)
  {
    var offers := Offers(lines);
    OfferedAddresses(lines);
    ScanAddressFirstWins(offers);
    assert RecordOfLines(lines).address == Scan(offers).address;
    assert RecordOfLines(lines).zipcode == Scan(offers).zip;
    var first := FirstAddressLine(lines, 0);
    if first.Some? {
      var k := first.value;
      forall j | 0 <= j < k
        ensures !offers[j].addressLine
      {
      }
      assert offers[k].addressLine;
    } else {
      forall j | 0 <= j < |offers|
        ensures !offers[j].addressLine
      {
      }
    }
  }

  lemma OfferedAddresses(lines: seq<string>)
    requires KeptShape(lines)
    ensures forall k :: 0 <= k < |lines| ==> Offers(lines)[k].addressLine == EndsInFiveDigits(lines[k])
    ensures forall k :: 0 <= k < |lines| ==> Offers(lines)[k].address == lines[k] && Offers(lines)[k].zip == ZipGroup(lines[k])
  {
    var offers := Offers(lines);
    forall k | 0 <= k < |lines|
      ensures offers[k].addressLine == EndsInFiveDigits(lines[k])
      ensures offers[k].address == lines[k] && offers[k].zip == ZipGroup(lines[k])
    {
      assert offers[k] == Offer(lines[k]);
      GuardedOffers(lines[k]);
    }
  }

  /** The alcohol type is decided by the lower-cased text of all kept lines
      joined with spaces, the all-alcoholic test first. */
  lemma AlcoholTypeOfEntity(entity: string)
    ensures var details := Lower(Join(KeptLines(entity), " "));
      && (EntityRecord(entity).alcoholType == Some(AllAlcoholic) <==> !AllSpace(entity) && QualifiesAllAlcoholic(details))
      && (EntityRecord(entity).alcoholType == Some(WinesAndMalt) <==>
            !AllSpace(entity) && !QualifiesAllAlcoholic(details) && QualifiesWinesAndMalt(details))
    ensures EntityRecord(entity).alcoholType.None? || AllowedType(EntityRecord(entity).alcoholType)
  {
    KeptLinesEmptyIffBlank(entity);
  }
}
