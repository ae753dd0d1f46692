/**
 The shared-note edit log: edits on Unicode code points, their transformation against edits already
 applied, and the service that appends one transformed edit per operation identity.
 */
module NoteEdits {
  import opened Wrappers

  datatype Edit =
    | Insert(position: int, text: string)
    | Delete(position: int, length: int)

  datatype InvalidEdit = InvalidEdit(reason: string)

  function ApplyEdit(body: string, edit: Edit): Result<string, InvalidEdit> {
    if edit.position < 0 || edit.position > |body| then
      Err(InvalidEdit("position is outside the note"))
    else match edit
      case Insert(position, text) =>
        if text == "" then Err(InvalidEdit("insert text must not be empty"))
        else Ok(body[..position] + text + body[position..])
      case Delete(position, length) =>
        if length <= 0 || position + length > |body| then
          Err(InvalidEdit("delete range is outside the note"))
        else Ok(body[..position] + body[position + length..])
  }

  /** A deletion whose whole range was already deleted by others leaves the note alone. */
  function ApplyNonEmptyEdit(body: string, edit: Edit): Result<string, InvalidEdit> {
    if edit.Delete? && edit.length == 0 then Ok(body) else ApplyEdit(body, edit)
  }

  function Max(a: int, b: int): int { if a < b then b else a }

  function Min(a: int, b: int): int { if a < b then a else b }

  /** `incomingWins` settles two insertions at one position. */
  function Transform(incoming: Edit, applied: Edit, incomingWins: bool): Edit {
    if applied.Insert? then AgainstInsert(incoming, applied, incomingWins) else AgainstDelete(incoming, applied)
  }

  function AgainstInsert(incoming: Edit, applied: Edit, incomingWins: bool): Edit
    requires applied.Insert?
  {
    var shift := |applied.text|;
    match incoming
    case Insert(position, text) =>
      var shifts := position > applied.position || (position == applied.position && !incomingWins);
      Insert(if shifts then position + shift else position, text)
    case Delete(position, length) =>
      if position >= applied.position then Delete(position + shift, length)
      else if position + length <= applied.position then incoming
      else Delete(position, length + shift)
  }

  function AgainstDelete(incoming: Edit, applied: Edit): Edit
    requires applied.Delete?
  {
    var start, end := applied.position, applied.position + applied.length;
    match incoming
    case Insert(position, text) =>
      if position <= start then incoming else Insert(Max(start, position - applied.length), text)
    case Delete(position, length) =>
      var newStart := position - Min(applied.length, Max(0, position - start));
      var overlap := Max(0, Min(position + length, end) - Max(position, start));
      Delete(newStart, Max(0, length - overlap))
  }

  /** In range for a note of this length. A transformed deletion may have become empty. */
  predicate Fits(size: nat, edit: Edit) {
    && 0 <= edit.position <= size
    && (edit.Insert? ==> edit.text != "")
    && (edit.Delete? ==> 0 <= edit.length && edit.position + edit.length <= size)
  }

  /** What a parsed message always satisfies, in range or not. */
  predicate WellFormed(edit: Edit) {
    edit.position >= 0 && if edit.Insert? then edit.text != "" else edit.length >= 1
  }

  function Growth(edit: Edit): int {
    if edit.Insert? then |edit.text| else -edit.length
  }

  /** An edit applies exactly when its place is in the note and it inserts or deletes something that is there. */
  lemma AppliesExactly(body: string, edit: Edit)
    ensures ApplyEdit(body, edit).Ok? <==>
              && 0 <= edit.position <= |body|
              && (edit.Insert? ==> edit.text != "")
              && (edit.Delete? ==> 1 <= edit.length <= |body| - edit.position)
    ensures ApplyEdit(body, edit).Ok? ==>
              ApplyEdit(body, edit).value
              == body[..edit.position] + (if edit.Insert? then edit.text + body[edit.position..]
                                          else body[edit.position + edit.length..])
  {
    if edit.Insert? && 0 <= edit.position <= |body| {
      assert body[..edit.position] + edit.text + body[edit.position..]
             == body[..edit.position] + (edit.text + body[edit.position..]);
    }
  }

  /** In-range edits apply and change the length by their own size; out-of-range ones are refused. */
  lemma FitsMeansApplies(body: string, edit: Edit)
    ensures Fits(|body|, edit) ==>
              var after := ApplyNonEmptyEdit(body, edit);
              after.Ok? && |after.value| == |body| + Growth(edit)
    ensures WellFormed(edit) && ApplyNonEmptyEdit(body, edit).Ok? ==> Fits(|body|, edit)
  {
  }

  /** Transformation neither breaks an edit that was in range nor repairs one that was not. */
  lemma TransformKeepsFit(size: nat, incoming: Edit, applied: Edit, wins: bool)
    requires Fits(size, applied)
    ensures size + Growth(applied) >= 0
    ensures Fits(size, incoming) ==> Fits(size + Growth(applied), Transform(incoming, applied, wins))
    ensures WellFormed(incoming) && !Fits(size, incoming) ==>
              var moved := Transform(incoming, applied, wins);
              WellFormed(moved) && !Fits(size + Growth(applied), moved)
  {
  }

  /** The insertion falls strictly inside the range that the other edit deletes. */
  predicate Swallowed(a: Edit, b: Edit) {
    a.Insert? && b.Delete? && b.position < a.position < b.position + b.length
  }

  function Then(body: string, first: Edit, second: Edit): Result<string, InvalidEdit> {
    var once := ApplyNonEmptyEdit(body, first);
    if once.Ok? then ApplyNonEmptyEdit(once.value, second) else once
  }

  /**
     Two concurrent edits of one note meet whichever is applied first, exactly when neither inserts
     strictly inside what the other deletes.
   */
  lemma TransformConverges(body: string, a: Edit, b: Edit, aWins: bool)
    requires WellFormed(a) && Fits(|body|, a) && WellFormed(b) && Fits(|body|, b)
    ensures Then(body, a, Transform(b, a, !aWins)).Ok? && Then(body, b, Transform(a, b, aWins)).Ok?
    ensures Then(body, a, Transform(b, a, !aWins)) == Then(body, b, Transform(a, b, aWins))
            <==> !Swallowed(a, b) && !Swallowed(b, a)
  {
    match (a, b)
    case (Insert(p, _), Insert(q, _)) =>
      if p < q || (p == q && aWins) { InsertsConverge(body, a, b, aWins); } else { InsertsConverge(body, b, a, !aWins); }
    case (Insert(_, _), Delete(_, _)) => InsertAndDeleteConverge(body, a, b, aWins);
    case (Delete(_, _), Insert(_, _)) => InsertAndDeleteConverge(body, b, a, !aWins);
    case (Delete(p, _), Delete(q, _)) =>
      if p <= q { DeletesConverge(body, a, b, aWins); } else { DeletesConverge(body, b, a, !aWins); }
  }

  lemma InsertsConverge(body: string, a: Edit, b: Edit, aWins: bool)
    requires WellFormed(a) && Fits(|body|, a) && WellFormed(b) && Fits(|body|, b)
    requires a.Insert? && b.Insert? && (a.position < b.position || (a.position == b.position && aWins))
    ensures Then(body, a, Transform(b, a, !aWins)).Ok?
    ensures Then(body, a, Transform(b, a, !aWins)) == Then(body, b, Transform(a, b, aWins))
  {
    InsertsCommute(body, a.position, a.text, b.position, b.text);
  }

  lemma InsertAndDeleteConverge(body: string, a: Edit, b: Edit, aWins: bool)
    requires WellFormed(a) && Fits(|body|, a) && WellFormed(b) && Fits(|body|, b)
    requires a.Insert? && b.Delete?
    ensures Then(body, a, Transform(b, a, !aWins)).Ok? && Then(body, b, Transform(a, b, aWins)).Ok?
    ensures Then(body, a, Transform(b, a, !aWins)) == Then(body, b, Transform(a, b, aWins)) <==> !Swallowed(a, b)
  {
    var (p, s, q, n) := (a.position, a.text, b.position, b.length);
    if p <= q {
      InsertBeforeDelete(body, p, s, q, n);
      assert Transform(b, a, !aWins) == Delete(q + |s|, n) && Transform(a, b, aWins) == a;
    } else if p >= q + n {
      InsertAfterDelete(body, p, s, q, n);
      assert Transform(b, a, !aWins) == b && Transform(a, b, aWins) == Insert(p - n, s);
    } else {
      SwallowedInsertionDiverges(body, a, b, !aWins);
      SwallowedInsertionDiverges(body, a, b, aWins);
    }
  }

  lemma DeletesConverge(body: string, a: Edit, b: Edit, aWins: bool)
    requires WellFormed(a) && Fits(|body|, a) && WellFormed(b) && Fits(|body|, b)
    requires a.Delete? && b.Delete? && a.position <= b.position
    ensures Then(body, a, Transform(b, a, !aWins)).Ok?
    ensures Then(body, a, Transform(b, a, !aWins)) == Then(body, b, Transform(a, b, aWins))
  {
    var (p, m, q, n) := (a.position, a.length, b.position, b.length);
    if p + m <= q {
      CutsApartCommute(body, p, m, q, n);
    } else {
      var overlap := Min(q + n, p + m) - q;
      CutsMerge(body, p, p, m, n - overlap);
      CutsMerge(body, p, q, n, m - overlap);
    }
  }

  function Put(body: string, position: nat, text: string): string
    requires position <= |body|
  {
    body[..position] + text + body[position..]
  }

  function Cut(body: string, position: nat, length: nat): string
    requires position + length <= |body|
  {
    body[..position] + body[position + length..]
  }

  lemma InsertsCommute(body: string, p: nat, s: string, q: nat, t: string)
    requires p <= q <= |body|
    ensures Put(Put(body, p, s), q + |s|, t) == Put(Put(body, q, t), p, s)
  {
    var whole := body[..p] + s + body[p..q] + t + body[q..];
    assert Put(body, p, s) == body[..p] + s + body[p..q] + body[q..];
    assert Put(Put(body, p, s), q + |s|, t) == whole;
    assert Put(Put(body, q, t), p, s) == whole;
  }

  lemma InsertBeforeDelete(body: string, p: nat, s: string, q: nat, n: nat)
    requires p <= q && q + n <= |body|
    ensures Cut(Put(body, p, s), q + |s|, n) == Put(Cut(body, q, n), p, s)
  {
    assert Put(body, p, s) == body[..p] + s + body[p..q] + body[q..];
    assert Cut(Put(body, p, s), q + |s|, n) == body[..p] + s + body[p..q] + body[q + n..];
    assert Put(Cut(body, q, n), p, s) == body[..p] + s + body[p..q] + body[q + n..];
  }

  lemma InsertAfterDelete(body: string, p: nat, s: string, q: nat, n: nat)
    requires q + n <= p <= |body|
    ensures Cut(Put(body, p, s), q, n) == Put(Cut(body, q, n), p - n, s)
  {
    assert Cut(Put(body, p, s), q, n) == body[..q] + body[q + n..p] + s + body[p..];
    assert Put(Cut(body, q, n), p - n, s) == body[..q] + body[q + n..p] + s + body[p..];
  }

  lemma CutsApartCommute(body: string, p: nat, m: nat, q: nat, n: nat)
    requires p + m <= q && q + n <= |body|
    ensures Cut(Cut(body, p, m), q - m, n) == Cut(Cut(body, q, n), p, m)
  {
    assert Cut(Cut(body, p, m), q - m, n) == body[..p] + body[p + m..q] + body[q + n..];
    assert Cut(Cut(body, q, n), p, m) == body[..p] + body[p + m..q] + body[q + n..];
  }

  /** Cutting across the place of an earlier cut removes one range. */
  lemma CutsMerge(body: string, p: nat, q: nat, n: nat, k: nat)
    requires p <= q <= p + k && p + k + n <= |body|
    ensures Cut(Cut(body, q, n), p, k) == Cut(body, p, k + n)
  {
  }

  /** An insertion made inside a concurrent deletion survives only if it is applied second. */
  lemma SwallowedInsertionDiverges(body: string, typed: Edit, cut: Edit, wins: bool)
    requires WellFormed(typed) && Fits(|body|, typed) && WellFormed(cut) && Fits(|body|, cut)
    requires Swallowed(typed, cut)
    ensures var left := Cut(body, cut.position, cut.length);
            && Then(body, typed, Transform(cut, typed, wins)) == Ok(left)
            && Then(body, cut, Transform(typed, cut, wins)) == Ok(Put(left, cut.position, typed.text))
  {
    var (p, s, q, n) := (typed.position, typed.text, cut.position, cut.length);
    assert Put(body, p, s) == body[..q] + body[q..p] + s + body[p..q + n] + body[q + n..];
    assert Cut(Put(body, p, s), q, n + |s|) == Cut(body, q, n);
  }

  // ---------- stored edits ----------

  datatype Value = Text(text: string) | Number(number: int)

  type Payload = map<string, Value>

  function StoredEdit(edit: Edit): Payload {
    match edit
    case Insert(position, text) =>
      map["kind" := Text("insert"), "position" := Number(position), "text" := Text(text)]
    case Delete(position, length) =>
      map["kind" := Text("delete"), "position" := Number(position), "length" := Number(length)]
  }

  predicate HasText(payload: Payload, key: string) { key in payload && payload[key].Text? }

  predicate HasNumber(payload: Payload, key: string) { key in payload && payload[key].Number? }

  function RestoreEdit(payload: Payload): Result<Edit, InvalidEdit> {
    if !HasNumber(payload, "position") then
      Err(InvalidEdit("stored edit position is invalid"))
    else
      var position := payload["position"].number;
      if "kind" in payload && payload["kind"] == Text("insert") && HasText(payload, "text") then
        Ok(Insert(position, payload["text"].text))
      else if "kind" in payload && payload["kind"] == Text("delete") && HasNumber(payload, "length") then
        Ok(Delete(position, payload["length"].number))
      else
        Err(InvalidEdit("stored edit shape is invalid"))
  }

  /** Storing loses nothing, and a restored edit is the one its payload stores. */
  lemma StoredEditsRoundTrip(edit: Edit, payload: Payload)
    ensures RestoreEdit(StoredEdit(edit)) == Ok(edit)
    ensures RestoreEdit(payload) == Ok(edit) ==>
              forall key :: key in StoredEdit(edit) ==> key in payload && payload[key] == StoredEdit(edit)[key]
  {
    var keys := ["kind", "position", "text", "length"];
    assert keys[0][0] == 'k' && keys[1][0] == 'p' && keys[2][0] == 't' && keys[3][0] == 'l';
  }

  // ---------- the log ----------

  datatype Operation = Operation(id: nat, base: nat, resulting: nat, edit: Payload)

  type Log = seq<Operation>

  /** The note that results from applying the stored edits in order. */
  function Replay(initial: string, log: Log): Result<string, InvalidEdit> {
    if log == [] then Ok(initial)
    else
      var prior := Replay(initial, log[..|log| - 1]);
      var edit := RestoreEdit(log[|log| - 1].edit);
      if prior.Err? then prior
      else if edit.Err? then Err(edit.error)
      else ApplyNonEmptyEdit(prior.value, edit.value)
  }

  /** The note as it was at a revision. */
  function BodyAt(initial: string, log: Log, revision: nat): string
    requires revision <= |log|
  {
    var body := Replay(initial, log[..revision]);
    if body.Ok? then body.value else ""
  }

  /** Entry `i` produced revision `i + 1` from an earlier base by an edit that fitted the note before it. */
  predicate EntryFits(initial: string, log: Log, i: nat)
    requires i < |log|
  {
    && log[i].resulting == i + 1
    && log[i].base <= i
    && Replay(initial, log[..i]).Ok?
    && RestoreEdit(log[i].edit).Ok?
    && Fits(|Replay(initial, log[..i]).value|, RestoreEdit(log[i].edit).value)
  }

  predicate Coherent(initial: string, log: Log) {
    && (forall i :: 0 <= i < |log| ==> EntryFits(initial, log, i))
    && (forall i, j :: 0 <= i < j < |log| ==> log[i].id != log[j].id)
  }

  lemma CoherentReplays(initial: string, log: Log, revision: nat)
    requires Coherent(initial, log) && revision <= |log|
    ensures Replay(initial, log[..revision]) == Ok(BodyAt(initial, log, revision))
    ensures revision < |log| ==>
              var edit := RestoreEdit(log[revision].edit);
              && edit.Ok? && Fits(|BodyAt(initial, log, revision)|, edit.value)
              && ApplyNonEmptyEdit(BodyAt(initial, log, revision), edit.value)
                 == Ok(BodyAt(initial, log, revision + 1))
              && |BodyAt(initial, log, revision + 1)| == |BodyAt(initial, log, revision)| + Growth(edit.value)
  {
    if revision < |log| {
      assert EntryFits(initial, log, revision);
      assert log[..revision + 1][..revision] == log[..revision];
      FitsMeansApplies(BodyAt(initial, log, revision), RestoreEdit(log[revision].edit).value);
    } else if revision > 0 {
      assert EntryFits(initial, log, revision - 1);
      assert log[..revision][..revision - 1] == log[..revision - 1];
      FitsMeansApplies(BodyAt(initial, log, revision - 1), RestoreEdit(log[revision - 1].edit).value);
    }
  }

  /** The edit as it reads after the log's entries from its base up to a revision. */
  function Carried(edit: Edit, id: nat, log: Log, base: nat, revision: nat): Edit
    requires base <= revision <= |log|
    decreases revision
  {
    if revision == base then edit
    else
      var applied := RestoreEdit(log[revision - 1].edit);
      var before := Carried(edit, id, log, base, revision - 1);
      if applied.Ok? then Transform(before, applied.value, id < log[revision - 1].id) else before
  }

  lemma CarriedStep(edit: Edit, id: nat, log: Log, base: nat, revision: nat)
    requires base <= revision < |log| && RestoreEdit(log[revision].edit).Ok?
    ensures log[base..][revision - base] == log[revision]
    ensures Carried(edit, id, log, base, revision + 1)
            == Transform(Carried(edit, id, log, base, revision), RestoreEdit(log[revision].edit).value, id < log[revision].id)
  {
  }

  /** An edit fits now exactly when it fitted the note its author saw. */
  lemma {:induction false} CarriedFits(initial: string, log: Log, edit: Edit, id: nat, base: nat, revision: nat)
    requires Coherent(initial, log) && base <= revision <= |log| && WellFormed(edit)
    ensures Fits(|BodyAt(initial, log, base)|, edit)
            ==> Fits(|BodyAt(initial, log, revision)|, Carried(edit, id, log, base, revision))
    ensures !Fits(|BodyAt(initial, log, base)|, edit)
            ==> var moved := Carried(edit, id, log, base, revision);
                WellFormed(moved) && !Fits(|BodyAt(initial, log, revision)|, moved)
    decreases revision
  {
    if base < revision {
      CarriedFits(initial, log, edit, id, base, revision - 1);
      CarriedOnce(initial, log, edit, id, base, revision - 1);
    }
  }

  lemma CarriedOnce(initial: string, log: Log, edit: Edit, id: nat, base: nat, revision: nat)
    requires Coherent(initial, log) && base <= revision < |log|
    ensures var (now, next) := (Carried(edit, id, log, base, revision), Carried(edit, id, log, base, revision + 1));
            && (Fits(|BodyAt(initial, log, revision)|, now) ==> Fits(|BodyAt(initial, log, revision + 1)|, next))
            && (WellFormed(now) && !Fits(|BodyAt(initial, log, revision)|, now)
                ==> WellFormed(next) && !Fits(|BodyAt(initial, log, revision + 1)|, next))
  {
    CoherentReplays(initial, log, revision);
    CarriedStep(edit, id, log, base, revision);
    TransformKeepsFit(|BodyAt(initial, log, revision)|, Carried(edit, id, log, base, revision),
                      RestoreEdit(log[revision].edit).value, id < log[revision].id);
  }

  /** The rows the service selects: those that resulted after the base. */
  function Since(log: Log, base: nat): Log {
    if log == [] then []
    else Since(log[..|log| - 1], base) + if log[|log| - 1].resulting > base then [log[|log| - 1]] else []
  }

  /** In a coherent log that selection is the gapless tail, already in order of revision. */
  lemma {:induction false} SinceIsTheTail(log: Log, base: nat)
    requires forall i :: 0 <= i < |log| ==> log[i].resulting == i + 1
    requires base <= |log|
    ensures Since(log, base) == log[base..]
  {
    if base < |log| {
      SinceIsTheTail(log[..|log| - 1], base);
    } else if |log| > 0 {
      SinceIsEmpty(log, base);
    }
  }

  lemma {:induction false} SinceIsEmpty(log: Log, base: nat)
    requires forall i :: 0 <= i < |log| ==> log[i].resulting <= base
    ensures Since(log, base) == []
  {
    if log != [] { SinceIsEmpty(log[..|log| - 1], base); }
  }

  // ---------- the service ----------

  /** A message past its schema: text and length are optional whatever the kind. */
  datatype Message = Message(id: nat, base: nat, kind: string, position: nat,
                             text: Option<string>, length: Option<nat>)

  function ParseEdit(message: Message): (r: Result<Edit, InvalidEdit>)
    ensures r.Ok? ==> WellFormed(r.value)
  {
    if message.kind == "insert" && message.text.Some? && message.text.value != "" then
      Ok(Insert(message.position, message.text.value))
    else if message.kind == "delete" && message.length.Some? && message.length.value != 0 then
      Ok(Delete(message.position, message.length.value))
    else
      Err(InvalidEdit("edit fields do not match kind"))
  }

  /** A message asks for the edit it names; one with the wrong or empty fields asks for none. */
  lemma ParsedAsNamed(message: Message, edit: Edit)
    ensures ParseEdit(message) == Ok(edit)
            <==> || (&& message.kind == "insert" && message.text.Some? && message.text.value != ""
                     && edit == Insert(message.position, message.text.value))
                 || (&& message.kind == "delete" && message.length.Some? && message.length.value > 0
                     && edit == Delete(message.position, message.length.value))
  {
    if message.kind == "insert" { assert message.kind[0] != "delete"[0]; }
  }

  datatype Reply =
    | Ack(revision: nat, body: string, transformed: bool, duplicate: bool)
    | Conflict(revision: nat, body: string)
    | Raised(error: InvalidEdit)

  ghost predicate Seen(log: Log, id: nat) {
    exists i :: 0 <= i < |log| && log[i].id == id
  }

  /** The edit a message asks for fits the note its author had. */
  predicate Acceptable(initial: string, log: Log, message: Message)
    requires message.base <= |log|
  {
    var parsed := ParseEdit(message);
    parsed.Ok? && Fits(|BodyAt(initial, log, message.base)|, parsed.value)
  }

  function Entry(log: Log, message: Message): Operation
    requires message.base <= |log| && ParseEdit(message).Ok?
  {
    Operation(message.id, message.base, |log| + 1,
              StoredEdit(Carried(ParseEdit(message).value, message.id, log, message.base, |log|)))
  }

  /** An acceptable, unseen message extends a coherent log to a coherent log. */
  lemma AppendKeepsCoherence(initial: string, log: Log, message: Message)
    requires Coherent(initial, log) && message.base <= |log|
    requires !Seen(log, message.id) && Acceptable(initial, log, message)
    ensures var edit := Carried(ParseEdit(message).value, message.id, log, message.base, |log|);
            var longer := log + [Entry(log, message)];
            && Coherent(initial, longer)
            && Replay(initial, longer) == ApplyNonEmptyEdit(BodyAt(initial, log, |log|), edit)
            && Replay(initial, longer).Ok?
  {
    var edit := Carried(ParseEdit(message).value, message.id, log, message.base, |log|);
    var longer := log + [Entry(log, message)];
    CarriedFits(initial, log, ParseEdit(message).value, message.id, message.base, |log|);
    CoherentReplays(initial, log, |log|);
    StoredEditsRoundTrip(edit, StoredEdit(edit));
    FitsMeansApplies(BodyAt(initial, log, |log|), edit);
    assert log[..|log|] == log && longer[..|log|] == log;
    forall i | 0 <= i < |longer| ensures EntryFits(initial, longer, i) {
      if i < |log| {
        assert EntryFits(initial, log, i);
        assert longer[..i] == log[..i];
      }
    }
  }

  lemma EntriesInOrder(initial: string, log: Log)
    requires Coherent(initial, log)
    ensures forall i :: 0 <= i < |log| ==> log[i].base < log[i].resulting == i + 1 && RestoreEdit(log[i].edit).Ok?
  {
    forall i | 0 <= i < |log| ensures log[i].base < log[i].resulting == i + 1 && RestoreEdit(log[i].edit).Ok? {
      assert EntryFits(initial, log, i);
    }
  }

  lemma WholeBody(initial: string, log: Log, body: string)
    requires Replay(initial, log) == Ok(body)
    ensures BodyAt(initial, log, |log|) == body
  {
    assert log[..|log|] == log;
  }

  /** How the service answers a message on a log, and the log it leaves: one of four cases, each exact. */
  ghost predicate Answers(initial: string, log: Log, message: Message, reply: Reply, after: Log) {
    var body, revised := BodyAt(initial, log, |log|), BodyAt(initial, after, |after|);
    if Seen(log, message.id) then
      && after == log
      && exists i :: 0 <= i < |log| && log[i].id == message.id
                     && reply == Ack(|log|, body, log[i].base != log[i].resulting - 1, true)
    else if message.base > |log| then
      after == log && reply == Conflict(|log|, body)
    else if !Acceptable(initial, log, message) then
      after == log && reply.Raised?
    else
      && after == log + [Entry(log, message)]
      && reply == Ack(|log| + 1, revised, message.base != |log|, false)
  }

  /** The carried edit applies to the current note exactly when its message is acceptable. */
  lemma CarriedApplies(initial: string, log: Log, body: string, message: Message)
    requires Coherent(initial, log) && Replay(initial, log) == Ok(body)
    requires message.base <= |log| && ParseEdit(message).Ok?
    ensures var edit := Carried(ParseEdit(message).value, message.id, log, message.base, |log|);
            ApplyNonEmptyEdit(body, edit).Ok? <==> Acceptable(initial, log, message)
  {
    WholeBody(initial, log, body);
    CarriedFits(initial, log, ParseEdit(message).value, message.id, message.base, |log|);
    FitsMeansApplies(body, Carried(ParseEdit(message).value, message.id, log, message.base, |log|));
  }

  lemma AppendAnswers(initial: string, log: Log, body: string, message: Message)
    requires Coherent(initial, log) && Replay(initial, log) == Ok(body)
    requires message.base <= |log| && !Seen(log, message.id) && Acceptable(initial, log, message)
    ensures var edited := ApplyNonEmptyEdit(
              body, Carried(ParseEdit(message).value, message.id, log, message.base, |log|));
            var longer := log + [Entry(log, message)];
            && edited.Ok? && Coherent(initial, longer) && Replay(initial, longer) == edited
            && Answers(initial, log, message, Ack(|longer|, edited.value, message.base != |log|, false), longer)
  {
    WholeBody(initial, log, body);
    AppendKeepsCoherence(initial, log, message);
    var longer := log + [Entry(log, message)];
    WholeBody(initial, longer, Replay(initial, longer).value);
  }

  /** The log after a message has been appended to it. */
  function Appended(log: Log, message: Message): Log
    requires message.base <= |log| && ParseEdit(message).Ok?
  {
    log + [Entry(log, message)]
  }

  /** The note a message asks for, if it is one in range of the note it was written against. */
  function Asked(body: string, message: Message): Option<string> {
    var p := message.position;
    if message.kind == "insert" && message.text.Some? && message.text.value != "" && p <= |body| then
      Some(body[..p] + message.text.value + body[p..])
    else if message.kind == "delete" && message.length.Some? && 0 < message.length.value
            && p + message.length.value <= |body| then
      Some(body[..p] + body[p + message.length.value..])
    else None
  }

  lemma AskedIsApplied(body: string, message: Message)
    ensures Asked(body, message).Some? <==> ParseEdit(message).Ok? && Fits(|body|, ParseEdit(message).value)
    ensures Asked(body, message).Some? ==>
              ApplyNonEmptyEdit(body, ParseEdit(message).value) == Ok(Asked(body, message).value)
  {
    assert "insert" != "delete" by { assert "insert"[0] == 'i' && "delete"[0] == 'd'; }
  }

  lemma AppendedReplays(initial: string, log: Log, body: string, message: Message)
    requires Coherent(initial, log) && Replay(initial, log) == Ok(body)
    requires message.base <= |log| && !Seen(log, message.id) && Acceptable(initial, log, message)
    ensures var edited := ApplyNonEmptyEdit(
              body, Carried(ParseEdit(message).value, message.id, log, message.base, |log|));
            && edited.Ok? && Coherent(initial, Appended(log, message)) && Replay(initial, Appended(log, message)) == edited
            && BodyAt(initial, Appended(log, message), |log| + 1) == edited.value
  {
    AppendAnswers(initial, log, body, message);
    WholeBody(initial, Appended(log, message), Replay(initial, Appended(log, message)).value);
  }

  /** A message written against the current note is accepted exactly when it asks for one, and yields that. */
  lemma CurrentEditApplies(initial: string, log: Log, body: string, message: Message)
    requires Coherent(initial, log) && Replay(initial, log) == Ok(body) && message.base == |log|
    requires !Seen(log, message.id)
    ensures Acceptable(initial, log, message) <==> Asked(body, message).Some?
    ensures Acceptable(initial, log, message) ==>
              BodyAt(initial, Appended(log, message), |log| + 1) == Asked(body, message).value
  {
    WholeBody(initial, log, body);
    AskedIsApplied(body, message);
    if Acceptable(initial, log, message) {
      AppendedReplays(initial, log, body, message);
      CarriedNowhere(ParseEdit(message).value, message.id, log);
    }
  }

  lemma CarriedNowhere(edit: Edit, id: nat, log: Log)
    ensures Carried(edit, id, log, |log|, |log|) == edit
  {
  }

  /** The answer to a message written against the current note. */
  ghost predicate AnswersAsAsked(body: string, revision: nat, message: Message, reply: Reply, after: string) {
    match Asked(body, message)
    case Some(asked) => after == asked && reply == Ack(revision + 1, asked, false, false)
    case None => after == body && reply.Raised?
  }

  lemma CurrentAnswers(initial: string, log: Log, body: string, message: Message, reply: Reply, after: Log, edited: string)
    requires Coherent(initial, log) && Replay(initial, log) == Ok(body) && message.base == |log|
    requires !Seen(log, message.id) && Answers(initial, log, message, reply, after)
    requires Replay(initial, after) == Ok(edited)
    ensures AnswersAsAsked(body, |log|, message, reply, edited)
  {
    CurrentEditApplies(initial, log, body, message);
    WholeBody(initial, after, edited);
  }

  /**
   Two messages written against the same note: whichever the server takes first, the note ends the same,
   exactly when neither inserts strictly inside what the other deletes.
   */
  lemma ServingOrderDoesNotMatter(initial: string, log: Log, one: Message, other: Message)
    requires Coherent(initial, log) && Replay(initial, log).Ok? && one.base == other.base == |log|
    requires one.id != other.id && !Seen(log, one.id) && !Seen(log, other.id)
    requires Acceptable(initial, log, one) && Acceptable(initial, log, other)
    ensures var (a, b) := (ParseEdit(one).value, ParseEdit(other).value);
            BodyAt(initial, Appended(Appended(log, one), other), |log| + 2)
            == BodyAt(initial, Appended(Appended(log, other), one), |log| + 2)
            <==> !Swallowed(a, b) && !Swallowed(b, a)
  {
    var body := Replay(initial, log).value;
    var (a, b) := (ParseEdit(one).value, ParseEdit(other).value);
    WholeBody(initial, log, body);
    TransformConverges(body, a, b, one.id < other.id);
    BothApplied(initial, log, body, one, other);
    BothApplied(initial, log, body, other, one);
  }

  lemma BothApplied(initial: string, log: Log, body: string, first: Message, second: Message)
    requires Coherent(initial, log) && Replay(initial, log) == Ok(body) && first.base == second.base == |log|
    requires first.id != second.id && !Seen(log, first.id) && !Seen(log, second.id)
    requires Acceptable(initial, log, first) && Acceptable(initial, log, second)
    ensures var (a, b) := (ParseEdit(first).value, ParseEdit(second).value);
            Then(body, a, Transform(b, a, second.id < first.id))
            == Ok(BodyAt(initial, Appended(Appended(log, first), second), |log| + 2))
  {
    var (a, b) := (ParseEdit(first).value, ParseEdit(second).value);
    var once := Appended(log, first);
    AppendedReplays(initial, log, body, first);
    CarriedNowhere(a, first.id, log);
    OnceAppended(initial, log, body, first, second);
    AppendedReplays(initial, once, Replay(initial, once).value, second);
  }

  lemma OnceAppended(initial: string, log: Log, body: string, first: Message, second: Message)
    requires Coherent(initial, log) && Replay(initial, log) == Ok(body) && first.base == second.base == |log|
    requires first.id != second.id && !Seen(log, second.id)
    requires Acceptable(initial, log, first) && Acceptable(initial, log, second)
    ensures var (a, b, once) := (ParseEdit(first).value, ParseEdit(second).value, Appended(log, first));
            && !Seen(once, second.id) && Acceptable(initial, once, second)
            && Carried(b, second.id, once, |log|, |log| + 1) == Transform(b, a, second.id < first.id)
  {
    var (a, b, once) := (ParseEdit(first).value, ParseEdit(second).value, Appended(log, first));
    assert once[..|log|] == log[..|log|] && once[|log|] == Entry(log, first);
    CarriedNowhere(a, first.id, log);
    CarriedNowhere(b, second.id, once[..|log|]);
    StoredEditsRoundTrip(a, StoredEdit(a));
    CarriedStep(b, second.id, once, |log|, |log|);
  }

  /** Fold the selected operations into the edit, in their order. */
  method CarryThrough(message: Message, incoming: Edit, log: Log, operations: Log) returns (transformed: Edit)
    requires message.base <= |log| && operations == log[message.base..]
    requires forall i :: 0 <= i < |log| ==> RestoreEdit(log[i].edit).Ok?
    ensures transformed == Carried(incoming, message.id, log, message.base, |log|)
  {
    transformed := incoming;
    for i := 0 to |operations|
      invariant transformed == Carried(incoming, message.id, log, message.base, message.base + i)
    {
      CarriedStep(incoming, message.id, log, message.base, message.base + i);
      transformed := Transform(transformed, RestoreEdit(operations[i].edit).value, message.id < operations[i].id);
    }
  }

  class Note {
    var body: string
    var revision: nat
    var log: Log
    ghost const initial: string

    constructor (body: string)
      ensures Valid() && this.body == initial == body && log == []
    {
      this.body, this.initial := body, body;
      revision, log := 0, [];
    }

    /** The body is the replay of the log, whose revisions are exactly one to the note's. */
    ghost predicate Valid()
      reads this
    {
      && revision == |log|
      && Coherent(initial, log)
      && Replay(initial, log) == Ok(body)
    }

    /**
     One edit under the couple's lock. It is acknowledged as a duplicate, refused for a base in the
     future, raised as invalid, or appended; each exactly in the case named.
     */
    method ApplyLocked(message: Message) returns (reply: Reply)
      requires Valid()
      modifies this
      ensures Valid() && Answers(initial, old(log), message, reply, log)
    {
      WholeBody(initial, log, body);
      if i: int :| 0 <= i < |log| && log[i].id == message.id {
        return Ack(revision, body, log[i].base != log[i].resulting - 1, true);
      }
      if message.base > revision { return Conflict(revision, body); }
      var parsed := ParseEdit(message);
      if parsed.Err? { return Raised(parsed.error); }
      var carried := TransformSince(message, parsed.value);
      if carried.None? { return Conflict(revision, body); }
      var edit := carried.value;
      CarriedApplies(initial, log, body, message);
      var edited := ApplyNonEmptyEdit(body, edit);
      if edited.Err? { return Raised(edited.error); }
      AppendAnswers(initial, log, body, message);
      body := edited.value;
      revision := revision + 1;
      log := log + [Operation(message.id, message.base, revision, StoredEdit(edit))];
      reply := Ack(revision, body, message.base != revision - 1, false);
    }

    /** One message against the current note, which is edited as it asks or stays as it was. */
    method ApplyCurrent(message: Message) returns (reply: Reply)
      requires Valid() && message.base == revision && !Seen(log, message.id)
      modifies this
      ensures Valid() && AnswersAsAsked(old(body), old(revision), message, reply, body)
    {
      ghost var (was, before) := (log, body);
      reply := ApplyLocked(message);
      CurrentAnswers(initial, was, before, message, reply, log, body);
    }

    /** The selected rows never show a gap, so an edit is always carried to the current revision. */
    method TransformSince(message: Message, incoming: Edit) returns (edit: Option<Edit>)
      requires Valid() && message.base <= revision
      ensures edit == Some(Carried(incoming, message.id, log, message.base, revision))
    {
      if message.base == revision { return Some(incoming); }
      var operations := Since(log, message.base);
      EntriesInOrder(initial, log);
      SinceIsTheTail(log, message.base);
      if |operations| != revision - message.base { return None; }
      var transformed := CarryThrough(message, incoming, log, operations);
      return Some(transformed);
    }

    /**
     Any messages, from any clients, in any order and with any retries: every one is answered on the log
     that the ones before it left, so acceptable edits are appended, and each identity at most once.
     */
    method Serve(messages: seq<Message>) returns (replies: seq<Reply>, ghost logs: seq<Log>)
      requires Valid()
      modifies this
      ensures Valid() && |replies| == |messages| && |logs| == |messages| + 1
      ensures logs[0] == old(log) && logs[|messages|] == log
      ensures forall k :: 0 <= k < |messages| ==> Answers(initial, logs[k], messages[k], replies[k], logs[k + 1])
      ensures old(log) <= log
      ensures forall id :: Seen(log, id) ==> Seen(old(log), id) || exists k :: 0 <= k < |messages| && messages[k].id == id
      ensures forall k :: 0 <= k < |messages| && replies[k].Ack? ==> Seen(log, messages[k].id)
      ensures forall i, j :: 0 <= i < j < |log| ==> log[i].id != log[j].id
      ensures forall i :: 0 <= i < |log| ==> log[i].base < log[i].resulting == i + 1
    {
      replies, logs := [], [log];
      for n := 0 to |messages|
        invariant Valid() && |replies| == n && |logs| == n + 1 && logs[0] == old(log) && logs[n] == log
        invariant forall k :: 0 <= k < n ==> Answers(initial, logs[k], messages[k], replies[k], logs[k + 1])
      {
        var reply := ApplyLocked(messages[n]);
        replies, logs := replies + [reply], logs + [log];
      }
      AnsweredInTurn(initial, messages, replies, logs);
      EntriesInOrder(initial, log);
    }
  }

  /** Answering in turn only appends, names no identity but the messages', and acknowledges what it holds. */
  lemma {:induction false} AnsweredInTurn(initial: string, messages: seq<Message>, replies: seq<Reply>, logs: seq<Log>)
    requires |replies| == |messages| && |logs| == |messages| + 1
    requires forall k :: 0 <= k < |messages| ==> Answers(initial, logs[k], messages[k], replies[k], logs[k + 1])
    ensures logs[0] <= logs[|messages|]
    ensures forall id :: Seen(logs[|messages|], id)
              ==> Seen(logs[0], id) || exists k :: 0 <= k < |messages| && messages[k].id == id
    ensures forall k :: 0 <= k < |messages| && replies[k].Ack? ==> Seen(logs[|messages|], messages[k].id)
  {
    if messages != [] {
      var n := |messages| - 1;
      AnsweredInTurn(initial, messages[..n], replies[..n], logs[..n + 1]);
      assert Answers(initial, logs[n], messages[n], replies[n], logs[n + 1]);
      SeenAfter(logs[n], logs[n + 1], messages[n]);
      forall id | Seen(logs[n + 1], id)
        ensures Seen(logs[0], id) || exists k :: 0 <= k < |messages| && messages[k].id == id
      {
        if Seen(logs[n], id) && !Seen(logs[0], id) {
          var k :| 0 <= k < n && messages[..n][k].id == id;
          assert messages[k].id == id;
        }
      }
      forall k | 0 <= k < |messages| && replies[k].Ack? ensures Seen(logs[n + 1], messages[k].id) {
        if k < n { assert replies[..n][k].Ack? && messages[..n][k] == messages[k]; }
      }
    }
  }

  lemma SeenAfter(before: Log, after: Log, message: Message)
    requires after == before || (|after| == |before| + 1 && before <= after && after[|before|].id == message.id)
    ensures forall id :: Seen(before, id) ==> Seen(after, id)
    ensures after != before ==> Seen(after, message.id)
    ensures forall id :: Seen(after, id) ==> Seen(before, id) || id == message.id
  {
    if after != before {
      assert after[|before|].id == message.id;
      forall id | Seen(before, id) ensures Seen(after, id) {
        var i :| 0 <= i < |before| && before[i].id == id;
        assert after[i].id == id;
      }
      forall id | Seen(after, id) ensures Seen(before, id) || id == message.id {
        var i :| 0 <= i < |after| && after[i].id == id;
        if i < |before| { assert before[i].id == id; }
      }
    }
  }
}
