/** The passive paste scanner (ide-connectors/vscode/src/passive-scan.ts:88-148): pastes accumulate
    per document behind one debounce timer, and engine-down is reported once until an answer. */
module PasteDebouncer {
  import opened Basics

  const PASTE_THRESHOLD_CHARS := 200
  const MAX_DOCUMENT_BYTES := 262144

  datatype Context = Context(
    filePath: Option<string>, fileExtension: Option<string>, languageId: Option<string>, workspaceName: Option<string>)

  datatype Document = Document(uri: string, scheme: string, byteLength: nat, ctx: Context)

  datatype Entry = Entry(ctx: Context, text: string, timer: nat)

  datatype Answer = Threw | Fallback | Real(message: Option<string>)

  datatype Note = EngineDown | Answered | Advice(message: string)

  /** One document's history: the pastes taken in, the texts handed to scan, and the same pastes
      grouped as they were handed over, followed by those still in the pending entry. */
  datatype Doc = Doc(accepted: seq<string>, handed: seq<string>, batches: seq<seq<string>>, waiting: seq<string>)

  /** live: armed timers with the document each flushes. running: scans not answered yet. */
  datatype Controller = Controller(
    pending: map<string, Entry>, live: map<nat, string>, nextTimer: nat, notified: bool, disposed: bool,
    running: nat, notes: seq<Note>, docs: map<string, Doc>)

  const Fresh := Controller(map[], map[], 0, false, false, 0, [], map[])

  function DocAt(docs: map<string, Doc>, uri: string): Doc {
    if uri in docs then docs[uri] else Doc([], [], [], [])
  }

  /** Insertions long enough to be pastes. */
  function Pastes(inserted: seq<string>): seq<string> {
    if inserted == [] then [] else
    Pastes(inserted[..|inserted| - 1]) +
    (if |inserted[|inserted| - 1]| > PASTE_THRESHOLD_CHARS then [inserted[|inserted| - 1]] else [])
  }

  predicate Scannable(d: Document) {
    (d.scheme == "file" || d.scheme == "untitled") && d.byteLength <= MAX_DOCUMENT_BYTES
  }

  function Taken(d: Doc, pasted: seq<string>): Doc {
    d.(accepted := d.accepted + pasted, waiting := d.waiting + pasted)
  }

  function HandedOver(d: Doc, text: string): Doc {
    d.(handed := d.handed + [text], batches := d.batches + [d.waiting], waiting := [])
  }

  function Change(c: Controller, d: Document, inserted: seq<string>, enabled: bool): Controller {
    var pasted := Pastes(inserted);
    if c.disposed || !enabled || !Scannable(d) || pasted == [] then c else
    var live := if d.uri in c.pending then c.live - {c.pending[d.uri].timer} else c.live;
    var text := Join(if d.uri in c.pending then [c.pending[d.uri].text] + pasted else pasted, "\n");
    c.(pending := c.pending[d.uri := Entry(d.ctx, text, c.nextTimer)],
       live := live[c.nextTimer := d.uri], nextTimer := c.nextTimer + 1,
       docs := c.docs[d.uri := Taken(DocAt(c.docs, d.uri), pasted)])
  }

  function Flush(c: Controller, timer: nat): Controller
    requires timer in c.live
  {
    var uri := c.live[timer];
    var c' := c.(live := c.live - {timer}, pending := c.pending - {uri});
    if uri !in c.pending || c.disposed then c' else
    c'.(running := c.running + 1, docs := c.docs[uri := HandedOver(DocAt(c.docs, uri), c.pending[uri].text)])
  }

  function ReportEngineDown(c: Controller): Controller {
    if c.notified then c else c.(notified := true, notes := c.notes + [EngineDown])
  }

  function ScanDone(c: Controller, a: Answer): Controller
    requires c.running > 0
  {
    var c' := c.(running := c.running - 1);
    match a
    case Threw => ReportEngineDown(c')
    case Fallback => ReportEngineDown(c')
    case Real(message) =>
      var notes := c.notes + [Answered];
      c'.(notified := false, notes := if message.Some? then notes + [Advice(message.value)] else notes)
  }

  /** The timers cleared are those of the pending entries. */
  function Dispose(c: Controller): Controller {
    c.(disposed := true, pending := map[], live := Cleared(c.live, c.pending, c.pending.Keys))
  }

  function Cleared(live: map<nat, string>, pending: map<string, Entry>, uris: set<string>): map<nat, string>
    requires uris <= pending.Keys
  {
    live - (set uri | uri in uris :: pending[uri].timer)
  }

  lemma ClearedNext(live: map<nat, string>, pending: map<string, Entry>, uris: set<string>, uri: string)
    requires uris <= pending.Keys && uri in pending
    ensures Cleared(live, pending, uris + {uri}) == Cleared(live, pending, uris) - {pending[uri].timer}
  {
  }

  datatype Step =
    | ChangeEvent(doc: Document, inserted: seq<string>, enabled: bool)
    | TimerFires(timer: nat)
    | ScanEnds(answer: Answer)
    | DisposeCall

  predicate Enabled(c: Controller, step: Step) {
    match step
    case TimerFires(t) => t in c.live
    case ScanEnds(_) => c.running > 0
    case _ => true
  }

  function Apply(c: Controller, step: Step): Controller
    requires Enabled(c, step)
  {
    match step
    case ChangeEvent(d, inserted, enabled) => Change(c, d, inserted, enabled)
    case TimerFires(t) => Flush(c, t)
    case ScanEnds(a) => ScanDone(c, a)
    case DisposeCall => Dispose(c)
  }

  ghost predicate IsStep(c: Controller, step: Step, c': Controller) { Enabled(c, step) && c' == Apply(c, step) }

  ghost predicate IsRun(states: seq<Controller>, steps: seq<Step>) {
    && |states| == |steps| + 1
    && states[0] == Fresh
    && forall i :: 0 <= i < |steps| ==> IsStep(states[i], steps[i], states[i + 1])
  }

  // ---------------------------------------------------------------- the invariant

  /** Pending entries and live timers correspond one to one. */
  ghost predicate TimersOk(c: Controller) {
    && (forall uri :: uri in c.pending ==> c.pending[uri].timer in c.live && c.live[c.pending[uri].timer] == uri)
    && (forall t :: t in c.live ==> t < c.nextTimer && c.live[t] in c.pending && c.pending[c.live[t]].timer == t)
    && (c.disposed ==> c.pending == map[])
  }

  /** Every text handed over is the joined pastes of one batch; and nothing is lost or repeated:
      the accepted pastes are those of the batches, then those waiting. */
  ghost predicate DocOk(d: Doc) {
    && d.accepted == Flatten(d.batches) + d.waiting
    && |d.handed| == |d.batches|
    && forall i :: 0 <= i < |d.handed| ==> d.handed[i] == Join(d.batches[i], "\n")
  }

  /** The pending entry holds the waiting pastes, joined; there is none when nothing waits. */
  ghost predicate PendingOk(pending: map<string, Entry>, docs: map<string, Doc>, uri: string) {
    var waiting := DocAt(docs, uri).waiting;
    if uri in pending then waiting != [] && pending[uri].text == Join(waiting, "\n") else waiting == []
  }

  ghost predicate DocsOk(c: Controller) {
    && (forall uri :: DocOk(DocAt(c.docs, uri)))
    && (!c.disposed ==> forall uri :: PendingOk(c.pending, c.docs, uri))
  }

  /** Since the last engine answer, an engine-down notice has been shown exactly when notified. */
  predicate DownSince(notes: seq<Note>) {
    if notes == [] then false
    else if notes[|notes| - 1].EngineDown? then true
    else if notes[|notes| - 1].Answered? then false
    else DownSince(notes[..|notes| - 1])
  }

  ghost predicate Separated(notes: seq<Note>) {
    forall i, j :: 0 <= i < j < |notes| && notes[i].EngineDown? && notes[j].EngineDown? ==>
      exists k :: i < k < j && notes[k].Answered?
  }

  ghost predicate NotesOk(c: Controller) { (c.notified <==> DownSince(c.notes)) && Separated(c.notes) }

  ghost predicate Inv(c: Controller) { TimersOk(c) && DocsOk(c) && NotesOk(c) }

  lemma {:induction false} JoinNested(g: seq<string>, p: seq<string>, sep: string)
    requires g != []
    ensures Join([Join(g, sep)] + p, sep) == Join(g + p, sep)
    decreases |g|
  {
    if p == [] {
      assert [Join(g, sep)] + p == [Join(g, sep)] && g + p == g;
    } else if |g| == 1 {
      assert g == [g[0]];
    } else {
      var x, t := g[0], g[1..];
      JoinNested(t, p, sep);
      assert (g + p)[1..] == t + p;
      assert ([Join(g, sep)] + p)[1..] == p && ([Join(t, sep)] + p)[1..] == p;
      assert x + sep + Join(t, sep) + sep + Join(p, sep) == x + sep + (Join(t, sep) + sep + Join(p, sep));
    }
  }

  lemma TakenOk(d: Doc, pasted: seq<string>)
    requires DocOk(d)
    ensures DocOk(Taken(d, pasted))
  {
    assert Flatten(d.batches) + d.waiting + pasted == Flatten(d.batches) + (d.waiting + pasted);
  }

  lemma HandedOverOk(d: Doc)
    requires DocOk(d)
    ensures DocOk(HandedOver(d, Join(d.waiting, "\n")))
  {
    FlattenSnoc(d.batches, d.waiting);
  }

  lemma ChangeKeepsTimers(c: Controller, d: Document, inserted: seq<string>, enabled: bool)
    requires TimersOk(c)
    ensures TimersOk(Change(c, d, inserted, enabled))
  {
  }

  lemma ChangeKeepsDocs(c: Controller, d: Document, inserted: seq<string>, enabled: bool)
    requires DocsOk(c)
    ensures DocsOk(Change(c, d, inserted, enabled))
  {
    var c', pasted, doc := Change(c, d, inserted, enabled), Pastes(inserted), DocAt(c.docs, d.uri);
    if c' != c {
      TakenOk(doc, pasted);
      forall u ensures DocOk(DocAt(c'.docs, u)) { assert DocOk(DocAt(c.docs, u)); }
      JoinedText(c.pending, c.docs, d.uri, pasted);
      forall u ensures PendingOk(c'.pending, c'.docs, u) { assert PendingOk(c.pending, c.docs, u); }
    }
  }

  /** Joining the new pastes to the pending text is joining them to the pastes behind it. */
  lemma JoinedText(pending: map<string, Entry>, docs: map<string, Doc>, uri: string, pasted: seq<string>)
    requires PendingOk(pending, docs, uri)
    ensures var parts := if uri in pending then [pending[uri].text] + pasted else pasted;
            Join(parts, "\n") == Join(DocAt(docs, uri).waiting + pasted, "\n")
  {
    var waiting := DocAt(docs, uri).waiting;
    if uri in pending { JoinNested(waiting, pasted, "\n"); } else { assert waiting + pasted == pasted; }
  }

  lemma FlushKeepsTimers(c: Controller, timer: nat)
    requires TimersOk(c) && timer in c.live
    ensures TimersOk(Flush(c, timer)) && !c.disposed && c.live[timer] in c.pending
  {
  }

  lemma FlushKeepsDocs(c: Controller, timer: nat)
    requires DocsOk(c) && timer in c.live && !c.disposed && c.live[timer] in c.pending
    ensures DocsOk(Flush(c, timer))
  {
    var c', uri := Flush(c, timer), c.live[timer];
    var doc := DocAt(c.docs, uri);
    assert PendingOk(c.pending, c.docs, uri);
    HandedOverOk(doc);
    forall u ensures DocOk(DocAt(c'.docs, u)) { assert DocOk(DocAt(c.docs, u)); }
    forall u ensures PendingOk(c'.pending, c'.docs, u) { assert PendingOk(c.pending, c.docs, u); }
  }

  lemma {:induction false} DownSinceMeans(notes: seq<Note>)
    ensures !DownSince(notes) ==> forall i :: 0 <= i < |notes| && notes[i].EngineDown? ==>
      exists k :: i < k < |notes| && notes[k].Answered?
    decreases |notes|
  {
    if notes != [] && !DownSince(notes) {
      var n := |notes| - 1;
      if notes[n].Advice? {
        DownSinceMeans(notes[..n]);
        forall i | 0 <= i < |notes| && notes[i].EngineDown? ensures exists k :: i < k < |notes| && notes[k].Answered? {
          assert notes[..n][i].EngineDown?;
          var k :| i < k < |notes[..n]| && notes[..n][k].Answered?;
          assert notes[k].Answered?;
        }
      } else {
        assert notes[n].Answered?;
      }
    }
  }

  lemma SeparatedNext(notes: seq<Note>, x: Note)
    requires Separated(notes) && (x.EngineDown? ==> !DownSince(notes))
    ensures Separated(notes + [x])
    ensures DownSince(notes + [x]) <==> x.EngineDown? || (x.Advice? && DownSince(notes))
  {
    var all := notes + [x];
    assert all[..|notes|] == notes;
    if x.EngineDown? { DownSinceMeans(notes); }
    forall i, j | 0 <= i < j < |all| && all[i].EngineDown? && all[j].EngineDown?
      ensures exists k :: i < k < j && all[k].Answered?
    {
      if j < |notes| {
        var k :| i < k < j && notes[k].Answered?;
        assert all[k].Answered?;
      } else {
        assert notes[i].EngineDown?;
        var k :| i < k < |notes| && notes[k].Answered?;
        assert all[k].Answered?;
      }
    }
  }

  lemma ScanDoneKeepsNotes(c: Controller, a: Answer)
    requires NotesOk(c) && c.running > 0
    ensures NotesOk(ScanDone(c, a))
  {
    if a.Real? {
      SeparatedNext(c.notes, Answered);
      if a.message.Some? { SeparatedNext(c.notes + [Answered], Advice(a.message.value)); }
    } else if !c.notified {
      SeparatedNext(c.notes, EngineDown);
    }
  }

  lemma StepKeeps(c: Controller, step: Step)
    requires Inv(c) && Enabled(c, step)
    ensures Inv(Apply(c, step))
  {
    match step
    case ChangeEvent(d, inserted, enabled) =>
      ChangeKeepsTimers(c, d, inserted, enabled);
      ChangeKeepsDocs(c, d, inserted, enabled);
    case TimerFires(t) =>
      FlushKeepsTimers(c, t);
      FlushKeepsDocs(c, t);
    case ScanEnds(a) => ScanDoneKeepsNotes(c, a);
    case DisposeCall =>
  }

  lemma {:induction false} RunKeeps(states: seq<Controller>, steps: seq<Step>, i: nat)
    requires IsRun(states, steps) && i < |states|
    ensures Inv(states[i])
  {
    if i == 0 {
    } else {
      RunKeeps(states, steps, i - 1);
      assert IsStep(states[i - 1], steps[i - 1], states[i - 1 + 1]);
      StepKeeps(states[i - 1], steps[i - 1]);
    }
  }

  // ---------------------------------------------------------------- what every run guarantees

  /** Before dispose, the accepted pastes of a document, in order, are those in the texts already
      handed to scan followed by those in its one pending entry; each text is the pastes of its batch
      joined by line breaks; and a pending entry owns exactly one live timer, every live timer
      exactly one entry. */
  lemma PastesAreNeitherLostNorRepeated(states: seq<Controller>, steps: seq<Step>, i: nat, uri: string)
    requires IsRun(states, steps) && i < |states| && !states[i].disposed
    ensures var c := states[i]; var d := DocAt(c.docs, uri);
      && d.accepted == Flatten(d.batches) + d.waiting
      && |d.handed| == |d.batches| && (forall k :: 0 <= k < |d.handed| ==> d.handed[k] == Join(d.batches[k], "\n"))
      && (uri in c.pending <==> d.waiting != [])
      && (uri in c.pending ==> c.pending[uri].text == Join(d.waiting, "\n"))
      && (forall t :: t in c.live && c.live[t] == uri <==> uri in c.pending && t == c.pending[uri].timer)
  {
    RunKeeps(states, steps, i);
    assert PendingOk(states[i].pending, states[i].docs, uri) && DocOk(DocAt(states[i].docs, uri));
  }

  lemma DisposedStep(c: Controller, step: Step)
    requires TimersOk(c) && c.disposed && Enabled(c, step)
    ensures Apply(c, step).disposed && Apply(c, step).docs == c.docs
  {
  }

  /** After dispose no scan starts and no paste is taken in. */
  lemma {:induction false} NoScanAfterDispose(states: seq<Controller>, steps: seq<Step>, i: nat, j: nat)
    requires IsRun(states, steps) && i <= j < |states| && states[i].disposed
    ensures states[j].disposed && states[j].docs == states[i].docs
    decreases j
  {
    if i == j {
    } else {
      NoScanAfterDispose(states, steps, i, j - 1);
      RunKeeps(states, steps, j - 1);
      assert IsStep(states[j - 1], steps[j - 1], states[j - 1 + 1]);
      DisposedStep(states[j - 1], steps[j - 1]);
    }
  }

  /** Between any two engine-down notices some scan got a real engine answer. */
  lemma NoticesAreSeparated(states: seq<Controller>, steps: seq<Step>, i: nat, a: nat, b: nat)
    requires IsRun(states, steps) && i < |states| && a < b < |states[i].notes|
    requires states[i].notes[a].EngineDown? && states[i].notes[b].EngineDown?
    ensures exists k :: a < k < b && states[i].notes[k].Answered?
  {
    RunKeeps(states, steps, i);
  }

  /** The texts of more than 200 characters, in order. */
  function LongTexts(inserted: seq<string>): seq<string> {
    if inserted == [] then []
    else (if |inserted[0]| > 200 then [inserted[0]] else []) + LongTexts(inserted[1..])
  }

  lemma {:induction false} LongTextsSnoc(inserted: seq<string>, x: string)
    ensures LongTexts(inserted + [x]) == LongTexts(inserted) + (if |x| > 200 then [x] else [])
    decreases |inserted|
  {
    if inserted == [] {
      assert inserted + [x] == [x] && [x][1..] == [];
    } else {
      assert (inserted + [x])[1..] == inserted[1..] + [x];
      LongTextsSnoc(inserted[1..], x);
    }
  }

  lemma {:induction false} PastesAreLongTexts(inserted: seq<string>)
    ensures Pastes(inserted) == LongTexts(inserted)
    decreases |inserted|
  {
    if inserted == [] {
    } else {
      var n := |inserted| - 1;
      PastesAreLongTexts(inserted[..n]);
      LongTextsSnoc(inserted[..n], inserted[n]);
      assert inserted == inserted[..n] + [inserted[n]];
    }
  }

  /** A change is taken in exactly when the controller is live and enabled and the document is a file or
      untitled and at most 256 KiB; what is taken in are its texts of more than 200 characters, and if
      there are any, the document's entry gets its context and a new timer. No other document changes. */
  lemma ChangeTakesIn(states: seq<Controller>, steps: seq<Step>, i: nat)
    requires IsRun(states, steps) && i < |steps| && steps[i].ChangeEvent?
    ensures var c, c', d := states[i], states[i + 1], steps[i].doc;
      var live := !c.disposed && steps[i].enabled && (d.scheme == "file" || d.scheme == "untitled");
      var taken := if live && d.byteLength <= 262144 then LongTexts(steps[i].inserted) else [];
      && DocAt(c'.docs, d.uri).accepted == DocAt(c.docs, d.uri).accepted + taken
      && (forall uri :: uri != d.uri ==> DocAt(c'.docs, uri) == DocAt(c.docs, uri))
      && (taken != [] ==> d.uri in c'.pending && c'.pending[d.uri].ctx == d.ctx && c'.pending[d.uri].timer !in c.live)
      && (taken == [] ==> c' == c)
  {
    RunKeeps(states, steps, i);
    assert IsStep(states[i], steps[i], states[i + 1]);
    PastesAreLongTexts(steps[i].inserted);
  }

  /** A scan that fails or falls back is reported unless that was done since the last real answer; a
      real answer is noted, with its advice if it has any. */
  lemma EngineDownIsReported(states: seq<Controller>, steps: seq<Step>, i: nat)
    requires IsRun(states, steps) && i < |steps| && steps[i].ScanEnds?
    ensures var notes, notes' := states[i].notes, states[i + 1].notes;
      match steps[i].answer {
        case Real(None) => notes' == notes + [Answered]
        case Real(Some(message)) => notes' == notes + [Answered] + [Advice(message)]
        case _ => notes' == (if DownSince(notes) then notes else notes + [EngineDown]) && DownSince(notes')
      }
  {
    RunKeeps(states, steps, i);
    assert IsStep(states[i], steps[i], states[i + 1]);
  }

  // ---------------------------------------------------------------- the controller object

  class PassiveScanController {
    var pending: map<string, Entry>
    var live: map<nat, string>
    var nextTimer: nat
    var engineDownNotified: bool
    var disposed: bool
    var running: nat
    var notes: seq<Note>
    ghost var docs: map<string, Doc>

    ghost function View(): Controller
      reads this
    {
      Controller(pending, live, nextTimer, engineDownNotified, disposed, running, notes, docs)
    }

    constructor ()
      ensures View() == Fresh
    {
      pending, live, nextTimer := map[], map[], 0;
      engineDownNotified, disposed, running, notes, docs := false, false, 0, [], map[];
    }

    method HandleChange(d: Document, inserted: seq<string>, enabled: bool)
      modifies this
      ensures View() == Change(old(View()), d, inserted, enabled)
    {
      if disposed || !enabled { return; }
      if d.scheme != "file" && d.scheme != "untitled" { return; }
      if d.byteLength > MAX_DOCUMENT_BYTES { return; }
      var pasted := [];
      for i := 0 to |inserted|
        invariant pasted == Pastes(inserted[..i])
      {
        assert inserted[..i + 1][..i] == inserted[..i];
        if |inserted[i]| > PASTE_THRESHOLD_CHARS { pasted := pasted + [inserted[i]]; }
      }
      assert inserted[..|inserted|] == inserted;
      if |pasted| == 0 { return; }
      var parts := pasted;
      if d.uri in pending {
        live := live - {pending[d.uri].timer};
        parts := [pending[d.uri].text] + pasted;
      }
      live := live[nextTimer := d.uri];
      pending := pending[d.uri := Entry(d.ctx, Join(parts, "\n"), nextTimer)];
      nextTimer := nextTimer + 1;
      docs := docs[d.uri := Taken(DocAt(docs, d.uri), pasted)];
    }

    /** The debounce timer's callback up to its await: what is given to scan, if anything. */
    method OnTimer(timer: nat) returns (scan: Option<Entry>)
      requires timer in live
      modifies this
      ensures View() == Flush(old(View()), timer)
      ensures scan == if old(disposed) || old(live[timer]) !in old(pending) then None
                      else Some(old(pending)[old(live[timer])])
    {
      var uri := live[timer];
      live := live - {timer};
      scan := if uri in pending then Some(pending[uri]) else None;
      pending := pending - {uri};
      if scan.None? || disposed { return None; }
      running := running + 1;
      docs := docs[uri := HandedOver(DocAt(docs, uri), scan.value.text)];
    }

    /** The rest of flush, after its await. */
    method OnScanDone(a: Answer)
      requires running > 0
      modifies this
      ensures View() == ScanDone(old(View()), a)
    {
      running := running - 1;
      match a
      case Threw => ReportDown();
      case Fallback => ReportDown();
      case Real(message) =>
        engineDownNotified := false;
        notes := notes + [Answered];
        if message.Some? { notes := notes + [Advice(message.value)]; }
    }

    method ReportDown()
      modifies this
      ensures View() == ReportEngineDown(old(View()))
    {
      if engineDownNotified { return; }
      engineDownNotified := true;
      notes := notes + [EngineDown];
    }

    /** `for (const entry of this.pending.values()) clearTimeout(entry.timer)`. */
    method ClearTimers()
      modifies this`live
      ensures live == Cleared(old(live), pending, pending.Keys)
    {
      var entries, left := pending, pending.Keys;
      while left != {}
        invariant left <= entries.Keys
        invariant live == Cleared(old(live), entries, entries.Keys - left)
        decreases |left|
      {
        var uri :| uri in left;
        assert entries.Keys - (left - {uri}) == entries.Keys - left + {uri};
        ClearedNext(old(live), entries, entries.Keys - left, uri);
        live := live - {entries[uri].timer};
        left := left - {uri};
      }
      assert entries.Keys - {} == entries.Keys;
    }

    method DisposeNow()
      modifies this
      ensures View() == Dispose(old(View()))
    {
      disposed := true;
      ClearTimers();
      pending := map[];
    }
  }
}
