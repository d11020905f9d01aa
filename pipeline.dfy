/**
 * `process_pdf`: find the hearing date on the first page, cut the hearing
 * section into entities, parse each one, keep the records of the two
 * allowed licence types with their file name, status and dates filled in,
 * and hand them to `write_to_file` unless this is a seeding run.
 */
module Pipeline {
  import opened Options
  import opened Records
  import opened Paths
  import opened HearingDate
  import opened Segmenter
  import opened EntityParser
  import opened Storage

  /** What the file system and the PDF library report for the file:
      whether it exists, the first page's text (`None` when the PDF cannot
      be opened or has no page) and the layout tree (`None` when it cannot
      be opened). */
  datatype PdfInput = PdfInput(isFile: bool, firstPage: Option<string>, layout: Option<Document>)

  /** How `process_pdf` ends: the process exits with a status, the
      uncaught exception of line 236, or the list it returns. */
  datatype Outcome = Exited(code: int) | Crashed | Returned(records: seq<Record>)

  /** `date` and `expiration_date` after the `try` of lines 218-222:
      both set, both `None`, or the date set and the year after it out of
      range. */
  datatype Dating = Dated(hearing: Date, expiration: Date) | Undated | ExpirationFailed(hearing: Date)

  const Seeding := "seeding"

  /** The dates are real calendar dates, the second one year after the
      first. */
  predicate Consistent(dating: Dating) {
    && (dating.Dated? ==> ValidDate(dating.hearing) && AddOneYear(dating.hearing) == Some(dating.expiration))
    && (dating.ExpirationFailed? ==> ValidDate(dating.hearing))
  }

  function DatingOf(firstPage: Option<string>, pdfPath: string): (r: Dating)
    ensures Consistent(r)
    ensures r.Undated? <==> firstPage.None? || !FindHearingDate(firstPage.value, pdfPath).Found?
    ensures r.Dated? ==> r.hearing == FindHearingDate(firstPage.value, pdfPath).date
    ensures r.ExpirationFailed? ==> r.hearing == FindHearingDate(firstPage.value, pdfPath).date && r.hearing.year == 9999
  {
    if firstPage.None? then Undated
    else
      match FindHearingDate(firstPage.value, pdfPath)
      case Found(d) =>
        NoMatchNotFound(firstPage.value, pdfPath);
        (match AddOneYear(d)
         case Some(e) => Dated(d, e)
         case None => ExpirationFailed(d))
      case _ => Undated
  }

  /** The `try` of lines 218-222. */
  method ReadDates(firstPage: Option<string>, pdfPath: string) returns (dating: Dating)
    ensures dating == DatingOf(firstPage, pdfPath)
  {
    dating := Undated;
    if firstPage.Some? {
      var found := FindHearingDate(firstPage.value, pdfPath);
      if found.Found? {
        NoMatchNotFound(firstPage.value, pdfPath);
        var expiration := AddOneYear(found.date);
        dating := if expiration.Some? then Dated(found.date, expiration.value) else ExpirationFailed(found.date);
      }
    }
  }

  /** A kept record as lines 233-240 leave it. */
  function Finalized(r: Record, fileName: string, dating: Dating): Record
    requires Consistent(dating) && !dating.ExpirationFailed?
  {
    var minutes := if dating.Dated? then Some(Iso(dating.hearing)) else None;
    var expiration := if dating.Dated? then Some(Iso(dating.expiration)) else None;
    r.(fileName := Some(fileName), minutesDate := minutes, applicationExpirationDate := expiration, status := Some(Deferred))
  }

  /** `parse_entity` on every entity, in order. */
  function Parsed(entities: seq<string>): (r: seq<Record>)
    ensures |r| == |entities|
  {
    if entities == [] then []
    else Parsed(entities[..|entities| - 1]) + [EntityRecord(entities[|entities| - 1])]
  }

  /** The k-th parsed record is `parse_entity` of the k-th entity. */
  lemma {:induction false} ParsedAt(entities: seq<string>, k: nat)
    requires k < |entities|
    ensures Parsed(entities)[k] == EntityRecord(entities[k])
    decreases |entities|, 1
  {
    if k < |entities| - 1 {
      ParsedAtInit(entities, k);
    } else {
      ParsedLast(entities);
    }
  }

  /** An entity before the last is parsed as part of the shorter list. */
  lemma {:induction false} ParsedAtInit(entities: seq<string>, k: nat)
    requires k < |entities| - 1
    ensures Parsed(entities)[k] == EntityRecord(entities[k])
    decreases |entities|, 0
  {
    var init := entities[..|entities| - 1];
    ParsedInit(entities, k);
    ParsedAt(init, k);
    assert init[k] == entities[k];
  }

  lemma ParsedLast(entities: seq<string>)
    requires entities != []
    ensures Parsed(entities)[|entities| - 1] == EntityRecord(entities[|entities| - 1])
  {
  }

  lemma ParsedInit(entities: seq<string>, k: nat)
    requires k < |entities| - 1
    ensures Parsed(entities)[k] == Parsed(entities[..|entities| - 1])[k]
  {
  }

  /** The records of an allowed licence type, in order. */
  function Kept(rs: seq<Record>): seq<Record> {
    if rs == [] then []
    else Kept(rs[..|rs| - 1]) + (if AllowedType(rs[|rs| - 1].alcoholType) then [rs[|rs| - 1]] else [])
  }

  /** `final_result` after the loop of lines 226-242 has seen the parsed
      records `rs`, or `None` when it crashes on a kept record. */
  function Stamp(rs: seq<Record>, fileName: string, dating: Dating): Option<seq<Record>>
    requires Consistent(dating)
  {
    if rs == [] then Some([])
    else
      match Stamp(rs[..|rs| - 1], fileName, dating)
      case None => None
      case Some(acc) =>
        var r := rs[|rs| - 1];
        if !AllowedType(r.alcoholType) then Some(acc)
        else if dating.ExpirationFailed? then None
        else Some(acc + [Finalized(r, fileName, dating)])
  }

  lemma ParsedSnoc(entities: seq<string>, i: nat)
    requires i < |entities|
    ensures Parsed(entities[..i + 1]) == Parsed(entities[..i]) + [EntityRecord(entities[i])]
  {
    assert entities[..i + 1][..i] == entities[..i];
  }

  /** One more record for the loop. */
  lemma StampSnoc(rs: seq<Record>, r: Record, fileName: string, dating: Dating)
    requires Consistent(dating)
    ensures Stamp(rs + [r], fileName, dating) ==
      match Stamp(rs, fileName, dating)
      case None => None
      case Some(acc) =>
        if !AllowedType(r.alcoholType) then Some(acc)
        else if dating.ExpirationFailed? then None
        else Some(acc + [Finalized(r, fileName, dating)])
  {
    assert (rs + [r])[..|rs|] == rs;
  }

  /** The loop of lines 226-242. */
  method CollectRecords(entities: seq<string>, fileName: string, dating: Dating) returns (r: Option<seq<Record>>)
    requires Consistent(dating)
    ensures r == Stamp(Parsed(entities), fileName, dating)
  {
    var final: seq<Record> := [];
    for i := 0 to |entities|
      invariant Stamp(Parsed(entities[..i]), fileName, dating) == Some(final)
    {
      var result := ParseEntity(entities[i]);
      ParsedSnoc(entities, i);
      StampSnoc(Parsed(entities[..i]), result, fileName, dating);
      if AllowedType(result.alcoholType) {
        if dating.ExpirationFailed? {
          StampCrashSticks(entities, fileName, dating, i + 1);
          return None;
        }
        ghost var parsed := result;
        result := result.(fileName := Some(fileName));
        if dating.Dated? {
          result := result.(minutesDate := Some(Iso(dating.hearing)), applicationExpirationDate := Some(Iso(dating.expiration)));
        } else {
          result := result.(minutesDate := None, applicationExpirationDate := None);
        }
        result := result.(status := Some(Deferred));
        assert result == Finalized(parsed, fileName, dating);
        final := final + [result];
      }
    }
    assert entities[..|entities|] == entities;
    r := Some(final);
  }

  /** Once the loop has crashed, it crashes on the whole input too. */
  lemma {:induction false} StampCrashSticks(entities: seq<string>, fileName: string, dating: Dating, i: nat)
    requires Consistent(dating)
    requires i <= |entities| && Stamp(Parsed(entities[..i]), fileName, dating).None?
    ensures Stamp(Parsed(entities), fileName, dating).None?
    decreases |entities| - i
  {
    if i < |entities| {
      ParsedSnoc(entities, i);
      StampSnoc(Parsed(entities[..i]), EntityRecord(entities[i]), fileName, dating);
      StampCrashSticks(entities, fileName, dating, i + 1);
    } else {
      assert entities[..i] == entities;
    }
  }

  /** `process_pdf(file_name, option)` run in directory `cwd`; `canWrite`
      says whether the data file can be written. */
  method ProcessPdf(fileName: string, option: string, cwd: string, pdf: PdfInput, store: Store, canWrite: bool)
    returns (outcome: Outcome)
    modifies store
    ensures !pdf.isFile || pdf.layout.None? ==> outcome == Exited(1) && store.file == old(store.file)
    ensures pdf.isFile && pdf.layout.Some? ==>
      var entities := Segment(pdf.layout.value, Basename(fileName));
      var built := Stamp(Parsed(entities), fileName, DatingOf(pdf.firstPage, PathJoin(cwd, fileName)));
      && (built.None? ==> outcome == Crashed && store.file == old(store.file))
      && (built.Some? && option == Seeding ==> outcome == Returned(built.value) && store.file == old(store.file))
      && (built.Some? && option != Seeding ==>
            && outcome == Returned(Incoming(old(store.file), built.value))
            && store.file == if canWrite then Stored(Merge(old(store.file), built.value)) else old(store.file))
  {
    var pdfPath := PathJoin(cwd, fileName);
    if !pdf.isFile {
      return Exited(1);
    }
    var dating := ReadDates(pdf.firstPage, pdfPath);
    var entities := ExtractEntities(pdf.layout, pdfPath);
    if entities.None? {
      return Exited(1);
    }
    BasenameOfJoin(cwd, fileName);
    var built := CollectRecords(entities.value, fileName, dating);
    if built.None? {
      return Crashed;
    }
    outcome := Deliver(built.value, option, store, canWrite);
  }

  /** Lines 244-248: a seeding run returns the records as they are; any
      other run hands them to `write_to_file` and returns them as it left
      them. */
  method Deliver(final: seq<Record>, option: string, store: Store, canWrite: bool) returns (outcome: Outcome)
    modifies store
    ensures option == Seeding ==> outcome == Returned(final) && store.file == old(store.file)
    ensures option != Seeding ==>
      && outcome == Returned(Incoming(old(store.file), final))
      && store.file == if canWrite then Stored(Merge(old(store.file), final)) else old(store.file)
  {
    if option == Seeding {
      return Returned(final);
    }
    var result := new Record[|final|](k requires 0 <= k < |final| => final[k]);
    assert result[..] == final;
    WriteToFile(store, result, canWrite);
    outcome := Returned(result[..]);
  }

  // ---------------------------------------------------------------------
  // What process_pdf promises
  // ---------------------------------------------------------------------

  /** Filtering distributes over concatenation, so the kept records keep
      their order. */
  lemma {:induction false} KeptAppend(xs: seq<Record>, ys: seq<Record>)
    ensures Kept(xs + ys) == Kept(xs) + Kept(ys)
    decreases |ys|
  {
    if ys != [] {
      var zs := xs + ys;
      var init := ys[..|ys| - 1];
      assert zs[..|zs| - 1] == xs + init;
      assert zs[|zs| - 1] == ys[|ys| - 1];
      KeptAppend(xs, init);
    } else {
      assert xs + ys == xs;
    }
  }

  /** A record is kept exactly when it is one of the input records and has
      an allowed type. */
  lemma {:induction false} KeptMembers(rs: seq<Record>)
    ensures forall r :: r in Kept(rs) <==> r in rs && AllowedType(r.alcoholType)
  {
    if rs != [] {
      var init := rs[..|rs| - 1];
      KeptMembers(init);
      assert rs == init + [rs[|rs| - 1]];
    }
  }

  /** The loop keeps, in order, exactly the records of an allowed type,
      finishing each; it crashes exactly when there is one to keep and the
      expiration date could not be computed. */
  lemma {:induction false} StampIsKept(rs: seq<Record>, fileName: string, dating: Dating)
    requires Consistent(dating)
    ensures Stamp(rs, fileName, dating).None? <==> Kept(rs) != [] && dating.ExpirationFailed?
    ensures var kept := Kept(rs); var b := Stamp(rs, fileName, dating);
      b.Some? ==> |b.value| == |kept| && forall k :: 0 <= k < |kept| ==> !dating.ExpirationFailed? && b.value[k] == Finalized(kept[k], fileName, dating)
  {
    if rs != [] {
      var init := rs[..|rs| - 1];
      var r := rs[|rs| - 1];
      StampIsKept(init, fileName, dating);
      var k0 := Kept(init);
      var b0 := Stamp(init, fileName, dating);
      var b := Stamp(rs, fileName, dating);
      if !AllowedType(r.alcoholType) {
        assert Kept(rs) == k0;
        assert b == b0;
      } else if dating.ExpirationFailed? {
        assert Kept(rs) == k0 + [r];
        assert b.None?;
      } else {
        assert Kept(rs) == k0 + [r];
        if b0.Some? {
          assert b == Some(b0.value + [Finalized(r, fileName, dating)]);
        }
      }
    }
  }

  /** Every returned record has status `Deferred` and the `file_name`
      argument; its other parsed fields are untouched;
      and its dates are both `None` or the ISO forms of the hearing date and
      of the same day one year later (29 February becoming 28 February). */
  lemma FinalizedFields(r: Record, fileName: string, dating: Dating)
    requires Consistent(dating) && !dating.ExpirationFailed?
    ensures var f := Finalized(r, fileName, dating);
      && f.status == Some(Deferred)
      && f.fileName == Some(fileName)
      && f.(fileName := r.fileName, minutesDate := r.minutesDate, applicationExpirationDate := r.applicationExpirationDate, status := r.status) == r
    ensures var f := Finalized(r, fileName, dating);
      dating.Undated? ==> f.minutesDate.None? && f.applicationExpirationDate.None?
    ensures var f := Finalized(r, fileName, dating);
      dating.Dated? ==>
        var h := dating.hearing;
        && f.minutesDate.Some? && ParseIso(f.minutesDate.value) == Some(h)
        && f.applicationExpirationDate.Some? && ParseIso(f.applicationExpirationDate.value) == Some(dating.expiration)
        && dating.expiration.year == h.year + 1 && dating.expiration.month == h.month
        && dating.expiration.day == (if h.month == 2 && h.day == 29 then 28 else h.day)
  {
    if dating.Dated? {
      IsoRoundTrip(dating.hearing);
      IsoRoundTrip(dating.expiration);
    }
  }

  /** The expiration date is missing only for a hearing in the year 9999. */
  lemma DatingFailsOnlyAt9999(firstPage: Option<string>, pdfPath: string)
    ensures DatingOf(firstPage, pdfPath).ExpirationFailed? <==>
      firstPage.Some? && FindHearingDate(firstPage.value, pdfPath).Found? && FindHearingDate(firstPage.value, pdfPath).date.year == 9999
  {
    if firstPage.Some? && FindHearingDate(firstPage.value, pdfPath).Found? {
      NoMatchNotFound(firstPage.value, pdfPath);
    }
  }
}
