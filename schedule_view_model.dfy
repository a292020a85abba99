/**
 * The application's view model: the list of schedules it shows, the selected
 * schedule, the loading and error flags and the location filter, with the
 * operations that import parsed or exported shifts, edit, delete and confirm
 * shifts, and turn errors into the messages shown to the user.
 *
 * The persistent store behind the Swift class is modelled by the list itself:
 * inserting, deleting and saving act on `schedules`, and a shift or schedule
 * object is designated by its identity.
 */
module ScheduleViewModelModel {

  import opened Wrappers
  import opened CivilCalendar
  import opened ShiftModel
  import opened WorkScheduleModel
  import opened Collections
  import OCRService
  import Patterns
  import PatternRoundTrips
  import ParserProperties

  /** What the error handler receives: a recognition error, or any other
      error with its localized description. */
  datatype AppError = OCRFailure(ocr: OCRService.OCRError) | Described(description: string)

  /** The outcome of recognizing the image and parsing the recognized text
      (`OCRService.ParseScheduleText`): the parsed shifts, one of the
      recognition errors of `OCRError`, or an error the text recognizer
      itself threw, with its localized description. */
  datatype Recognition =
    | Parsed(shifts: seq<OCRService.ParsedShift>)
    | RecognitionFailed(error: OCRService.OCRError)
    | RecognitionThrew(description: string)

  /** One exported shift record, and an export file's content. */
  datatype ShiftExport = ShiftExport(date: CalDate, startTime: int, endTime: int,
                                     location: string, segment: string, notes: string)
  datatype ExportData = ExportData(exportDate: int, shifts: seq<ShiftExport>)

  /** The outcome of decoding an export file. */
  datatype Decoding = Decoded(data: ExportData) | DecodingFailed(description: string)

  /** The values `updateShift` writes into a shift. */
  datatype ShiftFields = ShiftFields(date: CalDate, startTime: int, endTime: int,
                                     location: string, segment: string, notes: string)

  const NoShiftsDetected: string :=
    "Aucun horaire détecté. Vérifiez que l'image contient des dates et horaires au format WorkJam."
  const ContextUnavailable: string := "Context non disponible"
  const DefaultScheduleTitle: string := "Mes horaires"
  const ImportedTitlePrefix: string := "Horaires importés du "
  const ErrorPrefix: string := "Erreur: "

  /** The message `handleError` shows for an error. */
  function ErrorMessage(e: AppError): string {
    match e
    case OCRFailure(o) => RecognitionMessage(o)
    case Described(d) => ErrorPrefix + d
  }

  /** The fixed message for each recognition error, in its two sentences. */
  function RecognitionMessage(o: OCRService.OCRError): string {
    match o
    case ImageProcessingFailed =>
      "Impossible de traiter l'image." + " Essayez avec une capture d'écran plus claire."
    case NoTextFound =>
      "Aucun texte détecté dans l'image." + " Vérifiez que la capture contient des horaires."
    case InvalidImage =>
      "L'image est invalide ou corrompue." + " Sélectionnez une autre image."
  }

  /** The three recognition messages start with three different letters, none
      of them the first letter of "Erreur: ". */
  lemma RecognitionMessageHead(o: OCRService.OCRError)
    ensures |RecognitionMessage(o)| >= |ErrorPrefix|
    ensures RecognitionMessage(o)[0] == match o case ImageProcessingFailed => 'I' case NoTextFound => 'A' case InvalidImage => 'L'
  {
    match o
    case ImageProcessingFailed => assert "Impossible de traiter l'image."[0] == 'I';
    case NoTextFound => assert "Aucun texte détecté dans l'image."[0] == 'A';
    case InvalidImage => assert "L'image est invalide ou corrompue."[0] == 'L';
  }

  /** A message starts with "Erreur: " exactly when the error is not a
      recognition error. */
  lemma ErrorMessageKind(e: AppError)
    ensures |ErrorMessage(e)| >= |ErrorPrefix|
    ensures ErrorMessage(e)[..|ErrorPrefix|] == ErrorPrefix <==> e.Described?
  {
    if e.OCRFailure? {
      RecognitionMessageHead(e.ocr);
      assert ErrorMessage(e)[..|ErrorPrefix|][0] != ErrorPrefix[0];
    }
  }

  /** Different errors show different messages. */
  lemma ErrorMessageInjective(e1: AppError, e2: AppError)
    ensures ErrorMessage(e1) == ErrorMessage(e2) ==> e1 == e2
  {
    ErrorMessageKind(e1);
    ErrorMessageKind(e2);
    if e1.OCRFailure? && e2.OCRFailure? {
      RecognitionMessageHead(e1.ocr);
      RecognitionMessageHead(e2.ocr);
    } else if e1.Described? && e2.Described? {
      assert ErrorMessage(e1)[|ErrorPrefix|..] == e1.description;
      assert ErrorMessage(e2)[|ErrorPrefix|..] == e2.description;
    }
  }

  /** The shift made from a parsed shift: the parsed fields, no notes, confirmed. */
  function FromParsed(p: OCRService.ParsedShift, id: ShiftId): Shift {
    NewShift(id, p.date, p.startTime, p.endTime, p.location, p.segment)
  }

  /** The shifts made from a parsed text last less than a day either way:
      an end reading earlier than the start reading is not moved to the next
      day, so such a shift has a negative duration. */
  lemma ParsedDurationsWithinDay(text: string, today: CalDate, firstId: ShiftId)
    ensures var r := Numbered(OCRService.ParseSpec(text, today), FromParsed, firstId);
      forall i :: 0 <= i < |r| ==> -SecondsPerDay < Duration(r[i]) < SecondsPerDay
  {
    ParserProperties.ParsedShiftsWithinDay(text, today);
  }

  /** A night shift "10:00 PM – 6:00 AM" is read on one day, from 22:00 to
      6:00, and the shift made from it lasts minus sixteen hours. */
  lemma OvernightShiftDuration(today: CalDate, location: string, segment: string, id: ShiftId)
    ensures var t := PatternRoundTrips.AmPmRangeText(10, 0, Patterns.PM, '–', 6, 0, Patterns.AM);
      var r := OCRService.DetectTimeRangeAMPM(t, today);
      && r.Some? && r.value.start == Midnight(today) + 22 * 3600 && r.value.end == Midnight(today) + 6 * 3600
      && Duration(FromParsed(OCRService.ParsedShift(today, Midnight(today) + 22 * 3600, Midnight(today) + 6 * 3600,
                                                    location, segment), id)) == -16 * 3600
  {
    ParserProperties.AmPmRangeDetected(10, 0, Patterns.PM, '–', 6, 0, Patterns.AM, today);
  }

  /** The shift made from an exported record: the record's fields, confirmed. */
  function FromExport(e: ShiftExport, id: ShiftId): Shift {
    NewShift(id, e.date, e.startTime, e.endTime, e.location, e.segment, e.notes, true)
  }

  /** One new shift per element of `xs`, in order, with consecutive fresh
      identities from `firstId`. */
  function Numbered<T>(xs: seq<T>, make: (T, ShiftId) -> Shift, firstId: ShiftId): (r: seq<Shift>)
    ensures |r| == |xs|
    ensures forall i :: 0 <= i < |xs| ==> r[i] == make(xs[i], firstId + i)
    decreases |xs|
  {
    if xs == [] then []
    else Numbered(xs[..|xs| - 1], make, firstId) + [make(xs[|xs| - 1], firstId + |xs| - 1)]
  }

  /** The loop of both imports: one new shift per element of `xs` is appended,
      in order, to the schedule's shifts, with identities from `firstId` on. */
  method AppendNumbered<T>(schedule: WorkSchedule, xs: seq<T>, make: (T, ShiftId) -> Shift, firstId: ShiftId)
    returns (r: WorkSchedule)
    ensures r == schedule.(shifts := schedule.shifts + Numbered(xs, make, firstId))
  {
    r := schedule;
    var id := firstId;
    for k := 0 to |xs|
      invariant id == firstId + k
      invariant r == schedule.(shifts := schedule.shifts + Numbered(xs[..k], make, firstId))
    {
      assert xs[..k + 1][..k] == xs[..k];
      var shift := make(xs[k], id);
      r := r.(shifts := r.shifts + [shift]);
      id := id + 1;
    }
    assert xs[..|xs|] == xs;
  }

  /** Shifts made from parsed shifts carry the identities `firstId`,
      `firstId + 1`, …, the parsed fields, no notes, and are confirmed. */
  lemma {:induction false} ParsedIdentities(parsed: seq<OCRService.ParsedShift>, firstId: ShiftId)
    ensures var r := Numbered(parsed, FromParsed, firstId);
      forall i :: 0 <= i < |r| ==>
        (r[i].id == firstId + i && r[i].isConfirmed && r[i].notes == ""
         && r[i].date == parsed[i].date && r[i].startTime == parsed[i].startTime
         && r[i].endTime == parsed[i].endTime
         && r[i].segment == parsed[i].segment && r[i].location == parsed[i].location)
  {
  }

  /** Shifts made from exported records carry the identities `firstId`,
      `firstId + 1`, …, the record's fields, and are confirmed. */
  lemma {:induction false} ExportIdentities(records: seq<ShiftExport>, firstId: ShiftId)
    ensures var r := Numbered(records, FromExport, firstId);
      forall i :: 0 <= i < |r| ==>
        (r[i].id == firstId + i && r[i].isConfirmed && r[i].notes == records[i].notes
         && r[i].date == records[i].date && r[i].startTime == records[i].startTime
         && r[i].endTime == records[i].endTime
         && r[i].segment == records[i].segment && r[i].location == records[i].location)
  {
  }

  /** The identities of some shifts. */
  function IdsOf(xs: seq<Shift>): set<ShiftId> {
    set s | s in xs :: s.id
  }

  /** What is left of `xs` once the shifts with an identity in `ids` are deleted. */
  function Without(xs: seq<Shift>, ids: set<ShiftId>): (r: seq<Shift>)
    ensures forall s :: s in r <==> s in xs && s.id !in ids
    ensures |r| <= |xs|
  {
    if xs == [] then []
    else (if xs[0].id in ids then [] else [xs[0]]) + Without(xs[1..], ids)
  }

  /** Deleting two sets of shifts one after the other is deleting their union. */
  lemma {:induction false} WithoutTwice(xs: seq<Shift>, a: set<ShiftId>, b: set<ShiftId>)
    ensures Without(Without(xs, a), b) == Without(xs, a + b)
  {
    if xs != [] {
      WithoutTwice(xs[1..], a, b);
      var rest := Without(xs[1..], a);
      if xs[0].id in a {
        assert Without(xs, a) == rest;
      } else {
        assert Without(xs, a) == [xs[0]] + rest;
        assert ([xs[0]] + rest)[1..] == rest;
        assert Without([xs[0]] + rest, b) == (if xs[0].id in b then [] else [xs[0]]) + Without(rest, b);
      }
    }
  }

  /** Deleting a set of identities that covers every shift leaves nothing. */
  lemma {:induction false} WithoutCovered(xs: seq<Shift>, ids: set<ShiftId>)
    requires forall s :: s in xs ==> s.id in ids
    ensures Without(xs, ids) == []
  {
    if xs != [] {
      assert xs[0] in xs;
      WithoutCovered(xs[1..], ids);
    }
  }

  /** Deleting every shift of a list leaves nothing. */
  lemma WithoutAll(xs: seq<Shift>)
    ensures Without(xs, IdsOf(xs)) == []
  {
    WithoutCovered(xs, IdsOf(xs));
  }

  /** The identities of a prefix grow one shift at a time. */
  lemma IdsOfPrefix(xs: seq<Shift>, k: nat)
    requires k < |xs|
    ensures IdsOf(xs[..k + 1]) == IdsOf(xs[..k]) + {xs[k].id}
  {
    assert xs[..k + 1] == xs[..k] + [xs[k]];
  }

  /** Every schedule with the shifts whose identity is in `ids` deleted. */
  function DeleteIds(ws: seq<WorkSchedule>, ids: set<ShiftId>): (r: seq<WorkSchedule>)
    ensures |r| == |ws|
    ensures forall i :: 0 <= i < |ws| ==> r[i] == ws[i].(shifts := Without(ws[i].shifts, ids))
  {
    seq(|ws|, i requires 0 <= i < |ws| => ws[i].(shifts := Without(ws[i].shifts, ids)))
  }

  lemma DeleteIdsTwice(ws: seq<WorkSchedule>, a: set<ShiftId>, b: set<ShiftId>)
    ensures DeleteIds(DeleteIds(ws, a), b) == DeleteIds(ws, a + b)
  {
    forall i | 0 <= i < |ws| ensures DeleteIds(DeleteIds(ws, a), b)[i] == DeleteIds(ws, a + b)[i] {
      WithoutTwice(ws[i].shifts, a, b);
    }
  }

  /** Every schedule with `f` applied to the shifts whose identity is `id`. */
  function MapShifts(ws: seq<WorkSchedule>, id: ShiftId, f: Shift -> Shift): (r: seq<WorkSchedule>)
    ensures |r| == |ws|
    ensures forall i :: 0 <= i < |ws| ==>
      r[i].(shifts := ws[i].shifts) == ws[i] && |r[i].shifts| == |ws[i].shifts|
    ensures forall i, k :: 0 <= i < |ws| && 0 <= k < |ws[i].shifts| ==>
      r[i].shifts[k] == if ws[i].shifts[k].id == id then f(ws[i].shifts[k]) else ws[i].shifts[k]
  {
    seq(|ws|, i requires 0 <= i < |ws| =>
      ws[i].(shifts := seq(|ws[i].shifts|, k requires 0 <= k < |ws[i].shifts| =>
        if ws[i].shifts[k].id == id then f(ws[i].shifts[k]) else ws[i].shifts[k])))
  }

  /** `updateShift`'s assignments: the six editable fields are overwritten,
      the identity and the confirmation flag stay. */
  function Edited(s: Shift, v: ShiftFields): Shift {
    s.(date := v.date, startTime := v.startTime, endTime := v.endTime,
       location := v.location, segment := v.segment, notes := v.notes)
  }

  function EditShifts(ws: seq<WorkSchedule>, id: ShiftId, v: ShiftFields): seq<WorkSchedule> {
    MapShifts(ws, id, s => Edited(s, v))
  }

  /** `isConfirmed.toggle()`. */
  function Toggled(s: Shift): Shift {
    s.(isConfirmed := !s.isConfirmed)
  }

  function ToggleShifts(ws: seq<WorkSchedule>, id: ShiftId): seq<WorkSchedule> {
    MapShifts(ws, id, Toggled)
  }

  /** An edited shift holds exactly the new values and keeps its identity and
      confirmation; other shifts are untouched. */
  lemma EditedShift(ws: seq<WorkSchedule>, id: ShiftId, v: ShiftFields, i: nat, k: nat)
    requires i < |ws| && k < |ws[i].shifts|
    ensures var s, t := ws[i].shifts[k], EditShifts(ws, id, v)[i].shifts[k];
      if s.id == id then
        t.date == v.date && t.startTime == v.startTime && t.endTime == v.endTime
        && t.location == v.location && t.segment == v.segment && t.notes == v.notes
        && t.id == s.id && t.isConfirmed == s.isConfirmed
      else t == s
  {
  }

  /** Editing twice with the same values is editing once. */
  lemma EditIdempotent(ws: seq<WorkSchedule>, id: ShiftId, v: ShiftFields)
    ensures EditShifts(EditShifts(ws, id, v), id, v) == EditShifts(ws, id, v)
  {
    var once := EditShifts(ws, id, v);
    forall i | 0 <= i < |ws| ensures EditShifts(once, id, v)[i] == once[i] {
      assert EditShifts(once, id, v)[i].shifts == once[i].shifts;
    }
  }

  /** Toggling a shift's confirmation changes that flag and nothing else. */
  lemma ToggledShift(ws: seq<WorkSchedule>, id: ShiftId, i: nat, k: nat)
    requires i < |ws| && k < |ws[i].shifts|
    ensures var s, t := ws[i].shifts[k], ToggleShifts(ws, id)[i].shifts[k];
      if s.id == id then t.isConfirmed == !s.isConfirmed && t.(isConfirmed := s.isConfirmed) == s
      else t == s
  {
  }

  /** Toggling twice restores every schedule. */
  lemma ToggleInvolution(ws: seq<WorkSchedule>, id: ShiftId)
    ensures ToggleShifts(ToggleShifts(ws, id), id) == ws
  {
    var once := ToggleShifts(ws, id);
    forall i | 0 <= i < |ws| ensures ToggleShifts(once, id)[i] == ws[i] {
      assert ToggleShifts(once, id)[i].shifts == ws[i].shifts;
    }
  }

  /** The first schedule in the list with identity `id`. */
  function FindSchedule(ws: seq<WorkSchedule>, id: ScheduleId): (r: Option<WorkSchedule>)
    ensures r.Some? ==> r.value.id == id && r.value in ws
    ensures r.None? <==> forall w :: w in ws ==> w.id != id
  {
    if ws == [] then None
    else if ws[0].id == id then Some(ws[0])
    else
      assert forall w :: w in ws ==> w == ws[0] || w in ws[1..];
      FindSchedule(ws[1..], id)
  }

  /** The identities of the schedules, in list order. */
  function ScheduleIds(ws: seq<WorkSchedule>): (r: seq<ScheduleId>)
    ensures |r| == |ws| && forall i :: 0 <= i < |ws| ==> r[i] == ws[i].id
  {
    seq(|ws|, i requires 0 <= i < |ws| => ws[i].id)
  }

  /** Every shift identity issued so far is below the next one to issue. */
  ghost predicate ShiftIdsBelow(ws: seq<WorkSchedule>, nextShiftId: nat) {
    forall i, k :: 0 <= i < |ws| && 0 <= k < |ws[i].shifts| ==> ws[i].shifts[k].id < nextShiftId
  }

  /** Identities, each issued once and all below the next one to issue. */
  ghost predicate IdsFresh(ids: seq<nat>, next: nat) {
    && (forall i :: 0 <= i < |ids| ==> ids[i] < next)
    && (forall i, j :: 0 <= i < j < |ids| ==> ids[i] != ids[j])
  }

  /** No identity is carried by two shifts of one list. */
  ghost predicate ListIdsDistinct(xs: seq<Shift>) {
    forall k, l :: 0 <= k < l < |xs| ==> xs[k].id != xs[l].id
  }

  /** No identity is carried by two shifts, in one schedule or in two. */
  ghost predicate ShiftIdsDistinct(ws: seq<WorkSchedule>) {
    && (forall i :: 0 <= i < |ws| ==> ListIdsDistinct(ws[i].shifts))
    && (forall i, j :: 0 <= i < j < |ws| ==> IdsOf(ws[i].shifts) !! IdsOf(ws[j].shifts))
  }

  /** Shifts of two lists with disjoint identities differ in identity. */
  lemma DisjointIds(xs: seq<Shift>, ys: seq<Shift>, s: Shift, t: Shift)
    requires IdsOf(xs) !! IdsOf(ys) && s in xs && t in ys
    ensures s.id != t.id
  {
    assert s.id in IdsOf(xs) && t.id in IdsOf(ys);
  }

  /** Under distinct identities, a shift identity designates one place in the schedules. */
  lemma DistinctIdsAtPositions(ws: seq<WorkSchedule>, i: nat, k: nat, j: nat, l: nat)
    requires ShiftIdsDistinct(ws)
    requires i < |ws| && k < |ws[i].shifts| && j < |ws| && l < |ws[j].shifts|
    ensures ws[i].shifts[k].id == ws[j].shifts[l].id ==> i == j && k == l
  {
    if i < j {
      DisjointIds(ws[i].shifts, ws[j].shifts, ws[i].shifts[k], ws[j].shifts[l]);
    } else if j < i {
      DisjointIds(ws[j].shifts, ws[i].shifts, ws[j].shifts[l], ws[i].shifts[k]);
    } else {
      assert ListIdsDistinct(ws[i].shifts);
    }
  }

  /** The view model's invariant: schedule identities are distinct and below
      the next one to issue, shift identities are distinct and below theirs,
      and the selected schedule is one of the list. */
  ghost predicate ValidState(ws: seq<WorkSchedule>, selected: Option<ScheduleId>,
                             nextScheduleId: nat, nextShiftId: nat) {
    && IdsFresh(ScheduleIds(ws), nextScheduleId)
    && ShiftIdsBelow(ws, nextShiftId)
    && ShiftIdsDistinct(ws)
    && (selected.Some? ==> selected.value in ScheduleIds(ws))
  }

  /** The same schedules with the same number of shifts, carrying the same
      identity at every place. */
  ghost predicate SameIdLayout(ws: seq<WorkSchedule>, r: seq<WorkSchedule>) {
    && |r| == |ws|
    && (forall i :: 0 <= i < |ws| ==> |r[i].shifts| == |ws[i].shifts|)
    && (forall i, k :: 0 <= i < |ws| && 0 <= k < |ws[i].shifts| ==> r[i].shifts[k].id == ws[i].shifts[k].id)
  }

  lemma IdsOfSameLayout(xs: seq<Shift>, ys: seq<Shift>)
    requires |xs| == |ys| && forall k :: 0 <= k < |xs| ==> xs[k].id == ys[k].id
    ensures IdsOf(xs) == IdsOf(ys)
  {
    forall x | x in IdsOf(xs) ensures x in IdsOf(ys) {
      var s :| s in xs && s.id == x;
      var k :| 0 <= k < |xs| && xs[k] == s;
      assert ys[k] in ys;
    }
    forall x | x in IdsOf(ys) ensures x in IdsOf(xs) {
      var s :| s in ys && s.id == x;
      var k :| 0 <= k < |ys| && ys[k] == s;
      assert xs[k] in xs;
    }
  }

  /** Changing only shifts, and no shift's identity, keeps the invariant. */
  lemma SameSchedulesKeepValid(ws: seq<WorkSchedule>, r: seq<WorkSchedule>, selected: Option<ScheduleId>,
                               nextScheduleId: nat, nextShiftId: nat)
    requires ValidState(ws, selected, nextScheduleId, nextShiftId)
    requires ScheduleIds(r) == ScheduleIds(ws) && SameIdLayout(ws, r)
    ensures ValidState(r, selected, nextScheduleId, nextShiftId)
  {
    forall i | 0 <= i < |ws| ensures IdsOf(r[i].shifts) == IdsOf(ws[i].shifts) {
      IdsOfSameLayout(r[i].shifts, ws[i].shifts);
    }
    forall i | 0 <= i < |r| ensures ListIdsDistinct(r[i].shifts) {
      assert ListIdsDistinct(ws[i].shifts);
    }
  }

  /** At most one shift differs between two schedule lists of the same shape. */
  ghost predicate AtMostOneShiftChanged(ws: seq<WorkSchedule>, r: seq<WorkSchedule>) {
    && |r| == |ws|
    && (forall i :: 0 <= i < |ws| ==> r[i].(shifts := ws[i].shifts) == ws[i] && |r[i].shifts| == |ws[i].shifts|)
    && (forall i, k, j, l :: 0 <= i < |ws| && 0 <= k < |ws[i].shifts| && 0 <= j < |ws| && 0 <= l < |ws[j].shifts|
          && r[i].shifts[k] != ws[i].shifts[k] && r[j].shifts[l] != ws[j].shifts[l]
          ==> i == j && k == l)
  }

  /** Under distinct identities, changing "the shifts with identity `id`"
      changes one shift at most. */
  lemma MapShiftsChangesAtMostOne(ws: seq<WorkSchedule>, id: ShiftId, f: Shift -> Shift)
    requires ShiftIdsDistinct(ws)
    ensures AtMostOneShiftChanged(ws, MapShifts(ws, id, f))
  {
    var r := MapShifts(ws, id, f);
    forall i, k, j, l | 0 <= i < |ws| && 0 <= k < |ws[i].shifts| && 0 <= j < |ws| && 0 <= l < |ws[j].shifts|
        && r[i].shifts[k] != ws[i].shifts[k] && r[j].shifts[l] != ws[j].shifts[l]
      ensures i == j && k == l
    {
      DistinctIdsAtPositions(ws, i, k, j, l);
    }
  }

  lemma EditKeepsValid(ws: seq<WorkSchedule>, id: ShiftId, v: ShiftFields, selected: Option<ScheduleId>,
                       nextScheduleId: nat, nextShiftId: nat)
    requires ValidState(ws, selected, nextScheduleId, nextShiftId)
    ensures ValidState(EditShifts(ws, id, v), selected, nextScheduleId, nextShiftId)
  {
    var r := EditShifts(ws, id, v);
    assert ScheduleIds(r) == ScheduleIds(ws);
    assert SameIdLayout(ws, r);
    SameSchedulesKeepValid(ws, r, selected, nextScheduleId, nextShiftId);
  }

  lemma ToggleKeepsValid(ws: seq<WorkSchedule>, id: ShiftId, selected: Option<ScheduleId>,
                         nextScheduleId: nat, nextShiftId: nat)
    requires ValidState(ws, selected, nextScheduleId, nextShiftId)
    ensures ValidState(ToggleShifts(ws, id), selected, nextScheduleId, nextShiftId)
  {
    var r := ToggleShifts(ws, id);
    assert ScheduleIds(r) == ScheduleIds(ws);
    assert SameIdLayout(ws, r);
    SameSchedulesKeepValid(ws, r, selected, nextScheduleId, nextShiftId);
  }

  lemma DeleteIdsKeepsValid(ws: seq<WorkSchedule>, ids: set<ShiftId>, selected: Option<ScheduleId>,
                            nextScheduleId: nat, nextShiftId: nat)
    requires ValidState(ws, selected, nextScheduleId, nextShiftId)
    ensures ValidState(DeleteIds(ws, ids), selected, nextScheduleId, nextShiftId)
  {
    var r := DeleteIds(ws, ids);
    forall i, k | 0 <= i < |r| && 0 <= k < |r[i].shifts| ensures r[i].shifts[k].id < nextShiftId {
      assert r[i].shifts[k] in Without(ws[i].shifts, ids);
      var j :| 0 <= j < |ws[i].shifts| && ws[i].shifts[j] == r[i].shifts[k];
    }
    forall i | 0 <= i < |r| ensures ListIdsDistinct(r[i].shifts) && IdsOf(r[i].shifts) <= IdsOf(ws[i].shifts) {
      assert ListIdsDistinct(ws[i].shifts);
      WithoutKeepsDistinct(ws[i].shifts, ids);
      WithoutIdsSubset(ws[i].shifts, ids);
    }
    forall i, j | 0 <= i < j < |r| ensures IdsOf(r[i].shifts) !! IdsOf(r[j].shifts) {
      assert IdsOf(ws[i].shifts) !! IdsOf(ws[j].shifts);
    }
    assert ScheduleIds(r) == ScheduleIds(ws);
  }

  /** Deleting shifts adds no identity. */
  lemma WithoutIdsSubset(xs: seq<Shift>, ids: set<ShiftId>)
    ensures IdsOf(Without(xs, ids)) <= IdsOf(xs)
  {
    forall x | x in IdsOf(Without(xs, ids)) ensures x in IdsOf(xs) {
      var s :| s in Without(xs, ids) && s.id == x;
    }
  }

  lemma TailIdsDistinct(xs: seq<Shift>)
    requires xs != [] && ListIdsDistinct(xs)
    ensures ListIdsDistinct(xs[1..])
    ensures forall s :: s in xs[1..] ==> s.id != xs[0].id
  {
    var tail := xs[1..];
    forall k, l | 0 <= k < l < |tail| ensures tail[k].id != tail[l].id {
      assert tail[k] == xs[k + 1] && tail[l] == xs[l + 1];
    }
    forall s | s in tail ensures s.id != xs[0].id {
      var m :| 0 <= m < |tail| && tail[m] == s;
      assert tail[m] == xs[m + 1];
    }
  }

  lemma ConsIdsDistinct(x: Shift, rest: seq<Shift>)
    requires ListIdsDistinct(rest) && forall s :: s in rest ==> s.id != x.id
    ensures ListIdsDistinct([x] + rest)
  {
    var r := [x] + rest;
    forall k, l | 0 <= k < l < |r| ensures r[k].id != r[l].id {
      assert r[l] == rest[l - 1];
      if k > 0 {
        assert r[k] == rest[k - 1];
      }
    }
  }

  /** Deleting shifts keeps the identities left distinct. */
  lemma {:induction false} WithoutKeepsDistinct(xs: seq<Shift>, ids: set<ShiftId>)
    requires ListIdsDistinct(xs)
    ensures ListIdsDistinct(Without(xs, ids))
  {
    if xs != [] {
      TailIdsDistinct(xs);
      WithoutKeepsDistinct(xs[1..], ids);
      if xs[0].id !in ids {
        ConsIdsDistinct(xs[0], Without(xs[1..], ids));
      }
    }
  }

  /** The number of shifts in all schedules. */
  ghost function ShiftCount(ws: seq<WorkSchedule>): nat {
    if ws == [] then 0 else |ws[0].shifts| + ShiftCount(ws[1..])
  }

  /** Some schedule holds a shift with identity `id`. */
  ghost predicate HasShiftId(ws: seq<WorkSchedule>, id: ShiftId) {
    exists i :: 0 <= i < |ws| && id in IdsOf(ws[i].shifts)
  }

  lemma IdsOfCons(xs: seq<Shift>)
    requires xs != []
    ensures IdsOf(xs) == {xs[0].id} + IdsOf(xs[1..])
  {
    assert xs == [xs[0]] + xs[1..];
    assert forall s :: s in xs <==> s == xs[0] || s in xs[1..];
  }

  /** Deleting one identity from a list of distinct identities removes one
      shift if it is there and none otherwise. */
  lemma {:induction false} WithoutOneCount(xs: seq<Shift>, id: ShiftId)
    requires ListIdsDistinct(xs)
    ensures |Without(xs, {id})| == |xs| - (if id in IdsOf(xs) then 1 else 0)
  {
    if xs != [] {
      TailIdsDistinct(xs);
      WithoutOneCount(xs[1..], id);
      IdsOfCons(xs);
    }
  }

  lemma HasShiftIdCons(ws: seq<WorkSchedule>, id: ShiftId)
    requires ws != []
    ensures HasShiftId(ws, id) <==> id in IdsOf(ws[0].shifts) || HasShiftId(ws[1..], id)
  {
    var tail := ws[1..];
    if HasShiftId(tail, id) {
      var i :| 0 <= i < |tail| && id in IdsOf(tail[i].shifts);
      assert tail[i] == ws[i + 1];
    }
    if HasShiftId(ws, id) && id !in IdsOf(ws[0].shifts) {
      var i :| 0 <= i < |ws| && id in IdsOf(ws[i].shifts);
      assert tail[i - 1] == ws[i];
    }
  }

  /** The schedules after the first keep distinct identities, none of them
      one of the first schedule's. */
  lemma TailShiftIdsDistinct(ws: seq<WorkSchedule>)
    requires ws != [] && ShiftIdsDistinct(ws)
    ensures ShiftIdsDistinct(ws[1..])
    ensures forall x :: x in IdsOf(ws[0].shifts) ==> !HasShiftId(ws[1..], x)
  {
    var tail := ws[1..];
    forall i | 0 <= i < |tail| ensures ListIdsDistinct(tail[i].shifts) {
      assert tail[i] == ws[i + 1];
    }
    forall i, j | 0 <= i < j < |tail| ensures IdsOf(tail[i].shifts) !! IdsOf(tail[j].shifts) {
      assert tail[i] == ws[i + 1] && tail[j] == ws[j + 1];
    }
    forall x, i | x in IdsOf(ws[0].shifts) && 0 <= i < |tail| ensures x !in IdsOf(tail[i].shifts) {
      assert tail[i] == ws[i + 1];
      assert IdsOf(ws[0].shifts) !! IdsOf(ws[i + 1].shifts);
    }
  }

  /** Under distinct identities, deleting one identity removes exactly one
      shift when some schedule holds it, and none otherwise. */
  lemma {:induction false} DeleteOneCount(ws: seq<WorkSchedule>, id: ShiftId)
    requires ShiftIdsDistinct(ws)
    ensures ShiftCount(DeleteIds(ws, {id})) == ShiftCount(ws) - (if HasShiftId(ws, id) then 1 else 0)
  {
    if ws != [] {
      var r := DeleteIds(ws, {id});
      assert r[1..] == DeleteIds(ws[1..], {id});
      TailShiftIdsDistinct(ws);
      DeleteOneCount(ws[1..], id);
      assert ListIdsDistinct(ws[0].shifts);
      WithoutOneCount(ws[0].shifts, id);
      HasShiftIdCons(ws, id);
      assert ShiftCount(r) == |r[0].shifts| + ShiftCount(r[1..]);
    }
  }

  /** Where `importScheduleFromImage` puts new shifts: at the end of the first
      schedule, or in a new "Mes horaires" schedule when there is none. */
  function MergeParsed(ws: seq<WorkSchedule>, added: seq<Shift>, nextScheduleId: ScheduleId, now: int): seq<WorkSchedule> {
    if ws != [] then [ws[0].(shifts := ws[0].shifts + added)] + ws[1..]
    else [NewWorkSchedule(nextScheduleId, DefaultScheduleTitle, now).(shifts := added)]
  }

  /** The merge keeps every schedule and every shift already there, adds every
      new shift, in order, after the first schedule's own, and adds no
      duplicate filtering: the first schedule grows by exactly `|added|`. */
  lemma MergeParsedKeepsAndAppends(ws: seq<WorkSchedule>, added: seq<Shift>, nextScheduleId: ScheduleId, now: int)
    ensures var r := MergeParsed(ws, added, nextScheduleId, now);
      && |r| == (if ws == [] then 1 else |ws|)
      && r[0].shifts[..|r[0].shifts| - |added|] == (if ws == [] then [] else ws[0].shifts)
      && r[0].shifts[|r[0].shifts| - |added|..] == added
      && |r[0].shifts| == (if ws == [] then 0 else |ws[0].shifts|) + |added|
      && (ws == [] ==> r[0].title == DefaultScheduleTitle && r[0].id == nextScheduleId)
      && (ws != [] ==> r[0].(shifts := ws[0].shifts) == ws[0] && r[1..] == ws[1..])
  {
    var r := MergeParsed(ws, added, nextScheduleId, now);
    if ws != [] {
      assert r[0].shifts == ws[0].shifts + added;
    }
  }

  /** Shift identities all in `lo..hi - 1`. */
  ghost predicate IdsInRange(xs: seq<Shift>, lo: nat, hi: nat) {
    forall k :: 0 <= k < |xs| ==> lo <= xs[k].id < hi
  }

  lemma IdsOfInRange(xs: seq<Shift>, lo: nat, hi: nat)
    requires IdsInRange(xs, lo, hi)
    ensures forall x :: x in IdsOf(xs) ==> lo <= x < hi
  {
    forall x | x in IdsOf(xs) ensures lo <= x < hi {
      var s :| s in xs && s.id == x;
      var k :| 0 <= k < |xs| && xs[k] == s;
    }
  }

  lemma IdsOfAppend(xs: seq<Shift>, ys: seq<Shift>)
    ensures IdsOf(xs + ys) == IdsOf(xs) + IdsOf(ys)
  {
    assert forall s :: s in xs + ys <==> s in xs || s in ys;
  }

  /** Old identities followed by fresh ones stay distinct. */
  lemma AppendFreshDistinct(xs: seq<Shift>, ys: seq<Shift>, bound: nat, hi: nat)
    requires ListIdsDistinct(xs) && ListIdsDistinct(ys)
    requires IdsInRange(xs, 0, bound) && IdsInRange(ys, bound, hi)
    ensures ListIdsDistinct(xs + ys)
  {
    var r := xs + ys;
    forall k, l | 0 <= k < l < |r| ensures r[k].id != r[l].id {
      if l >= |xs| {
        assert r[l] == ys[l - |xs|];
        if k >= |xs| {
          assert r[k] == ys[k - |xs|];
        }
      }
    }
  }

  /** Every shift identity of a valid state is below the next one to issue. */
  lemma ScheduleIdsBelow(ws: seq<WorkSchedule>, nextShiftId: nat, i: nat)
    requires ShiftIdsBelow(ws, nextShiftId) && i < |ws|
    ensures IdsInRange(ws[i].shifts, 0, nextShiftId)
    ensures forall x :: x in IdsOf(ws[i].shifts) ==> x < nextShiftId
  {
    IdsOfInRange(ws[i].shifts, 0, nextShiftId);
  }

  /** Merging shifts with fresh, distinct identities keeps the invariant,
      with the merged schedule selected and the next identities moved past
      the new ones. */
  lemma MergeKeepsValid(ws: seq<WorkSchedule>, added: seq<Shift>, selected: Option<ScheduleId>,
                        nextScheduleId: nat, nextShiftId: nat, newNextShiftId: nat, now: int)
    requires ValidState(ws, selected, nextScheduleId, nextShiftId)
    requires nextShiftId <= newNextShiftId
    requires IdsInRange(added, nextShiftId, newNextShiftId) && ListIdsDistinct(added)
    ensures var r := MergeParsed(ws, added, nextScheduleId, now);
      ValidState(r, Some(r[0].id), if ws == [] then nextScheduleId + 1 else nextScheduleId, newNextShiftId)
  {
    var r := MergeParsed(ws, added, nextScheduleId, now);
    if ws != [] {
      assert forall i :: 1 <= i < |r| ==> r[i] == ws[i];
      assert r[0].shifts == ws[0].shifts + added;
      assert ScheduleIds(r) == ScheduleIds(ws);
      MergeIntoFirstDistinct(ws, added, nextShiftId, newNextShiftId);
      assert r == [ws[0].(shifts := ws[0].shifts + added)] + ws[1..];
    } else {
      assert ScheduleIds(r) == [nextScheduleId];
    }
    assert r[0].id == ScheduleIds(r)[0];
  }

  /** Appending fresh, distinct identities to the first schedule keeps all
      identities distinct. */
  lemma MergeIntoFirstDistinct(ws: seq<WorkSchedule>, added: seq<Shift>, nextShiftId: nat, newNextShiftId: nat)
    requires ws != [] && ShiftIdsBelow(ws, nextShiftId) && ShiftIdsDistinct(ws)
    requires IdsInRange(added, nextShiftId, newNextShiftId) && ListIdsDistinct(added)
    ensures ShiftIdsDistinct([ws[0].(shifts := ws[0].shifts + added)] + ws[1..])
  {
    var h := ws[0].(shifts := ws[0].shifts + added);
    var tail := ws[1..];
    TailShiftIdsDistinct(ws);
    ScheduleIdsBelow(ws, nextShiftId, 0);
    AppendFreshDistinct(ws[0].shifts, added, nextShiftId, newNextShiftId);
    IdsOfAppend(ws[0].shifts, added);
    IdsOfInRange(added, nextShiftId, newNextShiftId);
    forall j | 0 <= j < |tail| ensures IdsOf(h.shifts) !! IdsOf(tail[j].shifts) {
      assert tail[j] == ws[j + 1];
      ScheduleIdsBelow(ws, nextShiftId, j + 1);
      assert IdsOf(ws[0].shifts) !! IdsOf(ws[j + 1].shifts);
    }
    ConsShiftIdsDistinct(h, tail);
  }

  /** Putting a schedule with the next identity and fresh, distinct shift
      identities in front keeps the invariant. */
  lemma PrependKeepsValid(w: WorkSchedule, ws: seq<WorkSchedule>, selected: Option<ScheduleId>,
                          nextScheduleId: nat, nextShiftId: nat, newNextShiftId: nat)
    requires ValidState(ws, selected, nextScheduleId, nextShiftId) && w.id == nextScheduleId
    requires nextShiftId <= newNextShiftId
    requires IdsInRange(w.shifts, nextShiftId, newNextShiftId) && ListIdsDistinct(w.shifts)
    ensures ValidState([w] + ws, selected, nextScheduleId + 1, newNextShiftId)
  {
    var r := [w] + ws;
    assert forall i :: 1 <= i < |r| ==> r[i] == ws[i - 1];
    var ids := ScheduleIds(ws);
    assert ScheduleIds(r) == [w.id] + ids;
    assert forall i :: 1 <= i < |r| ==> ScheduleIds(r)[i] == ids[i - 1];
    IdsOfInRange(w.shifts, nextShiftId, newNextShiftId);
    forall j | 0 <= j < |ws| ensures IdsOf(w.shifts) !! IdsOf(ws[j].shifts) {
      ScheduleIdsBelow(ws, nextShiftId, j);
    }
    ConsShiftIdsDistinct(w, ws);
  }

  /** A schedule whose identities are distinct and used by no other schedule
      keeps the identities distinct when put in front. */
  lemma ConsShiftIdsDistinct(w: WorkSchedule, ws: seq<WorkSchedule>)
    requires ShiftIdsDistinct(ws) && ListIdsDistinct(w.shifts)
    requires forall j :: 0 <= j < |ws| ==> IdsOf(w.shifts) !! IdsOf(ws[j].shifts)
    ensures ShiftIdsDistinct([w] + ws)
  {
    var r := [w] + ws;
    forall j | 1 <= j < |r| ensures IdsOf(r[0].shifts) !! IdsOf(r[j].shifts) {
      assert r[j] == ws[j - 1];
    }
    forall i, j | 1 <= i < j < |r| ensures IdsOf(r[i].shifts) !! IdsOf(r[j].shifts) {
      assert r[i] == ws[i - 1] && r[j] == ws[j - 1];
    }
    forall i | 1 <= i < |r| ensures ListIdsDistinct(r[i].shifts) {
      assert r[i] == ws[i - 1];
    }
  }

  /** Adding an imported schedule under fresh identities keeps the state valid. */
  lemma ImportKeepsValid(ws: seq<WorkSchedule>, records: seq<ShiftExport>, selected: Option<ScheduleId>,
                         nextScheduleId: nat, nextShiftId: nat, title: string, now: int)
    requires ValidState(ws, selected, nextScheduleId, nextShiftId)
    ensures ValidState([NewWorkSchedule(nextScheduleId, title, now)
                          .(shifts := Numbered(records, FromExport, nextShiftId))] + ws,
                       selected, nextScheduleId + 1, nextShiftId + |records|)
  {
    var w := NewWorkSchedule(nextScheduleId, title, now).(shifts := Numbered(records, FromExport, nextShiftId));
    ExportIdentities(records, nextShiftId);
    PrependKeepsValid(w, ws, selected, nextScheduleId, nextShiftId, nextShiftId + |records|);
  }

  class ScheduleViewModel {
    var schedules: seq<WorkSchedule>
    var selectedSchedule: Option<ScheduleId>
    var isLoading: bool
    var errorMessage: Option<string>
    var showError: bool
    var filterLocation: Option<string>
    /** Whether a model context has been given (`modelContext != nil`). */
    var hasContext: bool
    /** The identities the next new schedule and shift receive. */
    var nextScheduleId: nat
    var nextShiftId: nat

    ghost predicate Valid()
      reads this
    {
      ValidState(schedules, selectedSchedule, nextScheduleId, nextShiftId)
    }

    /** The initial state, before or after a model context is given. */
    constructor (hasContext: bool)
      ensures Valid()
      ensures schedules == [] && selectedSchedule == None && !isLoading
      ensures errorMessage == None && !showError && filterLocation == None
      ensures this.hasContext == hasContext
    {
      schedules := [];
      selectedSchedule := None;
      isLoading := false;
      errorMessage := None;
      showError := false;
      filterLocation := None;
      this.hasContext := hasContext;
      nextScheduleId := 0;
      nextShiftId := 0;
    }

    /** `handleError`: shows the error's message. */
    method HandleError(e: AppError)
      modifies this`errorMessage, this`showError
      ensures errorMessage == Some(ErrorMessage(e)) && showError
    {
      errorMessage := Some(ErrorMessage(e));
      showError := true;
    }

    /** The merge step of `importScheduleFromImage`: every parsed shift is
        appended, in order, to the first schedule, or to a new "Mes horaires"
        schedule when there is none, and that schedule becomes the selected one. */
    method AddParsedShifts(parsed: seq<OCRService.ParsedShift>, now: int)
      requires Valid()
      modifies this`schedules, this`selectedSchedule, this`nextScheduleId, this`nextShiftId
      ensures Valid()
      ensures schedules == MergeParsed(old(schedules), Numbered(parsed, FromParsed, old(nextShiftId)),
                                       old(nextScheduleId), now)
      ensures selectedSchedule == Some(schedules[0].id)
    {
      var schedule: WorkSchedule;
      var existing := |schedules| > 0;
      if existing {
        schedule := schedules[0];
      } else {
        schedule := NewWorkSchedule(nextScheduleId, DefaultScheduleTitle, now);
        nextScheduleId := nextScheduleId + 1;
      }
      ghost var base := schedule;
      var firstId := nextShiftId;
      schedule := AppendNumbered(schedule, parsed, FromParsed, firstId);
      nextShiftId := firstId + |parsed|;
      ghost var added := Numbered(parsed, FromParsed, firstId);
      ParsedIdentities(parsed, firstId);
      MergeKeepsValid(schedules, added, selectedSchedule, old(nextScheduleId), firstId, nextShiftId, now);
      ghost var merged := MergeParsed(schedules, added, old(nextScheduleId), now);
      if existing {
        assert merged == [schedule] + schedules[1..];
        schedules := [schedule] + schedules[1..];
      } else {
        assert base.shifts + added == added;
        assert merged == [schedule];
        schedules := [schedule];
      }
      selectedSchedule := Some(schedule.id);
    }

    /** `importScheduleFromImage` after the recognition step: a recognition
        error, an empty parse result or a missing context is shown as an error
        and changes no schedule; otherwise the parsed shifts are merged in. The
        loading flag is down again on every path, and the previous error
        message is cleared first. */
    method ImportScheduleFromImage(outcome: Recognition, now: int)
      requires Valid()
      modifies this`schedules, this`selectedSchedule, this`isLoading, this`errorMessage,
               this`showError, this`nextScheduleId, this`nextShiftId
      ensures Valid()
      ensures !isLoading
      ensures outcome.RecognitionFailed? ==>
        && errorMessage == Some(ErrorMessage(OCRFailure(outcome.error))) && showError
        && schedules == old(schedules) && selectedSchedule == old(selectedSchedule)
      ensures outcome.RecognitionThrew? ==>
        && errorMessage == Some(ErrorPrefix + outcome.description) && showError
        && schedules == old(schedules) && selectedSchedule == old(selectedSchedule)
      ensures outcome == Parsed([]) ==>
        && errorMessage == Some(ErrorPrefix + NoShiftsDetected) && showError
        && schedules == old(schedules) && selectedSchedule == old(selectedSchedule)
      ensures outcome.Parsed? && outcome.shifts != [] && !hasContext ==>
        && errorMessage == Some(ErrorPrefix + ContextUnavailable) && showError
        && schedules == old(schedules) && selectedSchedule == old(selectedSchedule)
      ensures outcome.Parsed? && outcome.shifts != [] && hasContext ==>
        && errorMessage == None && showError == old(showError)
        && schedules == MergeParsed(old(schedules), Numbered(outcome.shifts, FromParsed, old(nextShiftId)),
                                    old(nextScheduleId), now)
        && selectedSchedule == Some(schedules[0].id)
    {
      isLoading := true;
      errorMessage := None;
      var thrown: Option<AppError> := None;
      match outcome {
        case RecognitionFailed(e) =>
          thrown := Some(OCRFailure(e));
        case RecognitionThrew(d) =>
          thrown := Some(Described(d));
        case Parsed(parsed) =>
          if |parsed| == 0 {
            thrown := Some(Described(NoShiftsDetected));
          } else if !hasContext {
            thrown := Some(Described(ContextUnavailable));
          } else {
            AddParsedShifts(parsed, now);
          }
      }
      isLoading := false;
      if thrown.Some? {
        HandleError(thrown.value);
      }
    }

    /** The schedule-building step of `importFromJSON`: a new schedule titled
        `title`, holding one confirmed shift per exported record in order, is
        added in front (the store lists the newest schedule first). */
    method AddImportedSchedule(records: seq<ShiftExport>, title: string, now: int)
      requires Valid()
      modifies this`schedules, this`nextScheduleId, this`nextShiftId
      ensures Valid()
      ensures schedules == [NewWorkSchedule(old(nextScheduleId), title, now)
                              .(shifts := Numbered(records, FromExport, old(nextShiftId)))]
                           + old(schedules)
    {
      var sid := nextScheduleId;
      var firstId := nextShiftId;
      var schedule := NewWorkSchedule(sid, title, now);
      schedule := AppendNumbered(schedule, records, FromExport, firstId);
      assert [] + Numbered(records, FromExport, firstId) == Numbered(records, FromExport, firstId);
      ImportKeepsValid(schedules, records, selectedSchedule, sid, firstId, title, now);
      nextShiftId := firstId + |records|;
      nextScheduleId := sid + 1;
      schedules := [schedule] + schedules;
    }

    /** `importFromJSON`: without a context nothing happens; otherwise a
        decoding error is shown, or the imported schedule is added, titled
        after the export date (`exportDateText` is that date in the medium
        date style). The loading flag ends down. */
    method ImportFromJSON(decoding: Decoding, exportDateText: string, now: int)
      requires Valid()
      modifies this`schedules, this`isLoading, this`errorMessage, this`showError,
               this`nextScheduleId, this`nextShiftId
      ensures Valid()
      ensures !hasContext ==>
        && schedules == old(schedules) && isLoading == old(isLoading)
        && errorMessage == old(errorMessage) && showError == old(showError)
      ensures hasContext ==> !isLoading
      ensures hasContext && decoding.DecodingFailed? ==>
        && errorMessage == Some(ErrorPrefix + decoding.description) && showError
        && schedules == old(schedules)
      ensures hasContext && decoding.Decoded? ==>
        && errorMessage == old(errorMessage) && showError == old(showError)
        && schedules == [NewWorkSchedule(old(nextScheduleId), ImportedTitlePrefix + exportDateText, now)
                           .(shifts := Numbered(decoding.data.shifts, FromExport, old(nextShiftId)))]
                        + old(schedules)
    {
      if !hasContext {
        return;
      }
      isLoading := true;
      match decoding {
        case DecodingFailed(d) =>
          isLoading := false;
          HandleError(Described(d));
        case Decoded(data) =>
          AddImportedSchedule(data.shifts, ImportedTitlePrefix + exportDateText, now);
          isLoading := false;
      }
    }

    /** `updateShift`: without a context nothing changes; otherwise the shift
        with identity `id` takes the six given values. */
    method UpdateShift(id: ShiftId, v: ShiftFields)
      requires Valid()
      modifies this`schedules
      ensures Valid()
      ensures schedules == if hasContext then EditShifts(old(schedules), id, v) else old(schedules)
      ensures AtMostOneShiftChanged(old(schedules), schedules)
    {
      if !hasContext {
        return;
      }
      EditKeepsValid(schedules, id, v, selectedSchedule, nextScheduleId, nextShiftId);
      MapShiftsChangesAtMostOne(schedules, id, s => Edited(s, v));
      schedules := EditShifts(schedules, id, v);
    }

    /** `deleteShift`: without a context nothing changes; otherwise the shift
        with identity `id` leaves its schedule. */
    method DeleteShift(id: ShiftId)
      requires Valid()
      modifies this`schedules
      ensures Valid()
      ensures schedules == if hasContext then DeleteIds(old(schedules), {id}) else old(schedules)
      ensures hasContext ==>
        ShiftCount(schedules) == ShiftCount(old(schedules)) - (if HasShiftId(old(schedules), id) then 1 else 0)
    {
      if !hasContext {
        return;
      }
      DeleteIdsKeepsValid(schedules, {id}, selectedSchedule, nextScheduleId, nextShiftId);
      DeleteOneCount(schedules, id);
      schedules := DeleteIds(schedules, {id});
    }

    /** `deleteAllShifts`: without a context or a schedule nothing changes;
        otherwise each shift of the first schedule is deleted in turn, which
        leaves that schedule empty. */
    method DeleteAllShifts()
      requires Valid()
      modifies this`schedules
      ensures Valid()
      ensures !hasContext || old(schedules) == [] ==> schedules == old(schedules)
      ensures hasContext && old(schedules) != [] ==>
        && schedules == DeleteIds(old(schedules), IdsOf(old(schedules)[0].shifts))
        && schedules[0].shifts == []
    {
      if !hasContext || |schedules| == 0 {
        return;
      }
      var toDelete := schedules[0].shifts;
      assert DeleteIds(schedules, {}) == schedules by {
        forall i | 0 <= i < |schedules| ensures Without(schedules[i].shifts, {}) == schedules[i].shifts {
          WithoutNothing(schedules[i].shifts);
        }
      }
      assert IdsOf(toDelete[..0]) == {};
      DeleteIdsKeepsValid(schedules, IdsOf(toDelete), selectedSchedule, nextScheduleId, nextShiftId);
      var remaining := schedules;
      for k := 0 to |toDelete|
        invariant remaining == DeleteIds(old(schedules), IdsOf(toDelete[..k]))
      {
        IdsOfPrefix(toDelete, k);
        DeleteIdsTwice(old(schedules), IdsOf(toDelete[..k]), {toDelete[k].id});
        remaining := DeleteIds(remaining, {toDelete[k].id});
      }
      assert toDelete[..|toDelete|] == toDelete;
      WithoutAll(toDelete);
      schedules := remaining;
    }

    /** `toggleShiftConfirmation`: without a context nothing changes;
        otherwise the shift's confirmation flag flips. */
    method ToggleShiftConfirmation(id: ShiftId)
      requires Valid()
      modifies this`schedules
      ensures Valid()
      ensures schedules == if hasContext then ToggleShifts(old(schedules), id) else old(schedules)
      ensures AtMostOneShiftChanged(old(schedules), schedules)
    {
      if !hasContext {
        return;
      }
      ToggleKeepsValid(schedules, id, selectedSchedule, nextScheduleId, nextShiftId);
      MapShiftsChangesAtMostOne(schedules, id, Toggled);
      schedules := ToggleShifts(schedules, id);
    }

    /** `filteredShifts`: nothing without a selected schedule; otherwise the
        selected schedule's shifts, only those at the filter location when a
        filter is set, in their order. */
    function FilteredShifts(): (r: seq<Shift>)
      reads this
      ensures selectedSchedule.None? ==> r == []
      ensures selectedSchedule.Some? && filterLocation.None? ==>
        r == (match FindSchedule(schedules, selectedSchedule.value)
              case Some(w) => w.shifts case None => [])
      ensures selectedSchedule.Some? && filterLocation.Some? ==>
        var shown := match FindSchedule(schedules, selectedSchedule.value)
                     case Some(w) => w.shifts case None => [];
        && r == ShiftsAt(shown, filterLocation.value)
        && forall s :: multiset(r)[s] == if s.location == filterLocation.value then multiset(shown)[s] else 0
    {
      match selectedSchedule
      case None => []
      case Some(id) =>
        var shown := match FindSchedule(schedules, id) case Some(w) => w.shifts case None => [];
        match filterLocation
        case None => shown
        case Some(location) => ShiftsAt(shown, location)
    }
  }

  /** Deleting no shift changes nothing. */
  lemma {:induction false} WithoutNothing(xs: seq<Shift>)
    ensures Without(xs, {}) == xs
    decreases |xs|
  {
    if xs != [] {
      WithoutNothing(xs[1..]);
      assert Without(xs, {}) == [xs[0]] + Without(xs[1..], {});
    }
  }
}
