/** Preparing an execution home: the agent's own configuration gets the pins, the
    permission mode and the trusted directories, and keeps everything else. */
module AgentHome {
  import opened Results
  import opened ConfigEdits

  datatype Pins = Pins(model: Option<string>, effort: Option<string>)

  datatype Kind = Codex | Claude | Unmapped

  /** A configuration file's content: a table, or text that does not parse. */
  datatype Document = Parsed(fields: Fields) | Broken

  /** The three files of a home that matter here. */
  datatype Files = Files(codex: Option<Document>, settings: Option<Document>, state: Option<Document>)

  const MAX_CONFIG: nat := 256 * 1024
  const CLAUDE_ALLOW: seq<string> := ["Bash", "Read", "Edit", "Write", "Glob", "Grep"]

  predicate ValidPin(value: string) {
    && 0 < |value| <= 64 && (Lower(value[0]) || Digit(value[0]))
    && forall c <- value :: Lower(c) || Digit(c) || c == '.' || c == '_' || c == ':' || c == '-'
  }

  predicate Lower(c: char) { 'a' <= c <= 'z' }
  predicate Digit(c: char) { '0' <= c <= '9' }

  /** A pin cannot be taken for an option, a path, or text that needs quoting. */
  lemma PinsArePlain(value: string, i: nat)
    requires ValidPin(value) && i < |value|
    ensures 1 <= |value| <= 64 && value[0] !in ['-', '.', ':', '_']
    ensures value[i] !in ['/', ' ', '\t', '\n', '"', '\'', '\\', '$', '=', '#', '[', ']']
  {
    assert value[i] in value;
  }

  predicate PinsOk(pins: Pins) {
    (pins.model.Some? ==> ValidPin(pins.model.value)) && (pins.effort.Some? ==> ValidPin(pins.effort.value))
  }

  predicate Distinct(s: seq<string>) { forall i, j :: 0 <= i < j < |s| ==> s[i] != s[j] }

  predicate Absolute(path: string) { path != "" && path[0] == '/' }

  // ---------------------------------------------------------------- the edits

  function PinEdits(pins: Pins): seq<Edit> {
    (if pins.model.Some? then [Edit([Model], Put(Text(pins.model.value)))] else [])
    + (if pins.effort.Some? then [Edit([Effort], Put(Text(pins.effort.value)))] else [])
  }

  function TrustEdits(trusted: seq<string>, flag: Key, value: Value): seq<Edit> {
    seq(|trusted|, i requires 0 <= i < |trusted| => Edit([Projects, Named(trusted[i]), flag], Put(value)))
  }

  function CodexKeys(): seq<Edit> {
    [Edit([ApprovalPolicy], Put(Text("never"))), Edit([SandboxMode], Put(Text("workspace-write"))), Edit([CheckForUpdate], Put(Flag(false)))]
  }

  function CodexTables(): seq<Edit> {
    [Edit([WorkspaceWrite, NetworkAccess], Put(Flag(false))), Edit([Projects], Table)]
  }

  function CodexEdits(pins: Pins, trusted: seq<string>): seq<Edit> {
    CodexKeys() + (PinEdits(pins) + (CodexTables() + TrustEdits(trusted, TrustLevel, Text("trusted"))))
  }

  function SettingsKeys(writable: seq<string>): seq<Edit> {
    [Edit([Permissions, DefaultMode], Put(Text("acceptEdits"))), Edit([Permissions, Allow], Include(CLAUDE_ALLOW)),
     Edit([Permissions, AdditionalDirectories], Include(writable)), Edit([Env, DisableAutoupdater], Put(Text("1")))]
  }

  function SettingsEdits(pins: Pins, writable: seq<string>): seq<Edit> {
    PinEdits(pins) + SettingsKeys(writable)
  }

  function StateKeys(): seq<Edit> {
    [Edit([CompletedOnboarding], Put(Flag(true))), Edit([Theme], Default(Text("dark"))), Edit([Projects], Table)]
  }

  function StateEdits(trusted: seq<string>): seq<Edit> {
    StateKeys() + (TrustEdits(trusted, TrustDialogAccepted, Flag(true)) + TrustEdits(trusted, CompletedProjectOnboarding, Flag(true)))
  }

  /** No edit of the list can undo an earlier one. */
  predicate Tidy(es: seq<Edit>) {
    Rooted(es) && Pairwise(es)
  }

  predicate Heads(es: seq<Edit>, heads: set<Key>) {
    forall i :: 0 <= i < |es| ==> es[i].path != [] && es[i].path[0] in heads
  }

  predicate AllCompatible(a: seq<Edit>, b: seq<Edit>) {
    forall i, j :: 0 <= i < |a| && 0 <= j < |b| ==> Compatible(a[i], b[j])
  }

  lemma TidyConcat(a: seq<Edit>, b: seq<Edit>)
    requires Tidy(a) && Tidy(b) && AllCompatible(a, b)
    ensures Tidy(a + b)
  {
    var es := a + b;
    forall i, j | 0 <= i < j < |es| ensures Compatible(es[i], es[j]) {
      if j < |a| {
        assert Compatible(a[i], a[j]);
      } else if i >= |a| {
        assert Compatible(b[i - |a|], b[j - |a|]);
      } else {
        assert Compatible(a[i], b[j - |a|]);
      }
    }
  }

  /** Edits under different top-level keys do not meet. */
  lemma DifferentHeads(a: seq<Edit>, heads: set<Key>, b: seq<Edit>, others: set<Key>)
    requires Tidy(a) && Tidy(b) && Heads(a, heads) && Heads(b, others) && heads !! others
    ensures Tidy(a + b) && Heads(a + b, heads + others)
  {
    forall i, j | 0 <= i < |a| && 0 <= j < |b| ensures Compatible(a[i], b[j]) {
      assert a[i].path[0] != b[j].path[0];
    }
    TidyConcat(a, b);
  }

  lemma PinsTidy(pins: Pins)
    ensures Tidy(PinEdits(pins)) && Heads(PinEdits(pins), {Model, Effort})
  {
    var es := PinEdits(pins);
    assert forall i :: 0 <= i < |es| ==> es[i].path == [Model] || es[i].path == [Effort];
    assert |es| <= 2 && (|es| == 2 ==> es[0].path[0] != es[1].path[0]);
  }

  lemma TrustIsTidy(trusted: seq<string>, flag: Key, value: Value)
    requires Distinct(trusted)
    ensures Tidy(TrustEdits(trusted, flag, value)) && Heads(TrustEdits(trusted, flag, value), {Projects})
  {
    var es := TrustEdits(trusted, flag, value);
    forall i, j | 0 <= i < j < |es| ensures Compatible(es[i], es[j]) {
      assert es[i].path[1] != es[j].path[1];
    }
  }

  /** Trusting directories fits after the table they go into. */
  lemma AfterTable(trusted: seq<string>, flag: Key, value: Value)
    ensures AllCompatible([Edit([Projects], Table)], TrustEdits(trusted, flag, value))
  {
    var es := TrustEdits(trusted, flag, value);
    forall j | 0 <= j < |es| ensures Compatible(Edit([Projects], Table), es[j]) {
      assert es[j].path == [Projects] + es[j].path[1..];
    }
  }

  lemma CodexTidy(pins: Pins, trusted: seq<string>)
    requires Distinct(trusted)
    ensures Tidy(CodexEdits(pins, trusted))
  {
    var trust := TrustEdits(trusted, TrustLevel, Text("trusted"));
    PinsTidy(pins);
    CodexTablesTidy(trusted);
    CodexKeysTidy();
    var rest := CodexTables() + trust;
    DifferentHeads(PinEdits(pins), {Model, Effort}, rest, {WorkspaceWrite, Projects});
    DifferentHeads(CodexKeys(), {ApprovalPolicy, SandboxMode, CheckForUpdate}, PinEdits(pins) + rest, {Model, Effort} + {WorkspaceWrite, Projects});
  }

  lemma CodexKeysTidy()
    ensures Tidy(CodexKeys()) && Heads(CodexKeys(), {ApprovalPolicy, SandboxMode, CheckForUpdate})
  {
    var es := CodexKeys();
    forall i, j | 0 <= i < j < |es| ensures Compatible(es[i], es[j]) {
      assert es[i].path[0] != es[j].path[0];
    }
  }

  lemma CodexTablesTidy(trusted: seq<string>)
    requires Distinct(trusted)
    ensures var es := CodexTables() + TrustEdits(trusted, TrustLevel, Text("trusted"));
            Tidy(es) && Heads(es, {WorkspaceWrite, Projects})
  {
    var trust := TrustEdits(trusted, TrustLevel, Text("trusted"));
    var table := [Edit([Projects], Table)];
    var network := [Edit([WorkspaceWrite, NetworkAccess], Put(Flag(false)))];
    TrustIsTidy(trusted, TrustLevel, Text("trusted"));
    AfterTable(trusted, TrustLevel, Text("trusted"));
    TidyConcat(table, trust);
    DifferentHeads(network, {WorkspaceWrite}, table + trust, {Projects});
    assert CodexTables() + trust == network + (table + trust);
    assert {WorkspaceWrite} + {Projects} == {WorkspaceWrite, Projects};
  }

  lemma SettingsTidy(pins: Pins, writable: seq<string>)
    ensures Tidy(SettingsEdits(pins, writable))
  {
    PinsTidy(pins);
    SettingsKeysTidy(writable);
    DifferentHeads(PinEdits(pins), {Model, Effort}, SettingsKeys(writable), {Permissions, Env});
  }

  lemma SettingsKeysTidy(writable: seq<string>)
    ensures Tidy(SettingsKeys(writable)) && Heads(SettingsKeys(writable), {Permissions, Env})
  {
    var es := SettingsKeys(writable);
    assert |es[0].path| == |es[1].path| == |es[2].path| == |es[3].path| == 2;
    forall i, j | 0 <= i < j < |es| ensures Compatible(es[i], es[j]) {
      assert es[i].path[1] != es[j].path[1];
    }
  }

  lemma StateTidy(trusted: seq<string>)
    requires Distinct(trusted)
    ensures Tidy(StateEdits(trusted))
  {
    var t := TrustEdits(trusted, TrustDialogAccepted, Flag(true));
    var u := TrustEdits(trusted, CompletedProjectOnboarding, Flag(true));
    var table := [Edit([Projects], Table)];
    var keys := [Edit([CompletedOnboarding], Put(Flag(true))), Edit([Theme], Default(Text("dark")))];
    TrustIsTidy(trusted, TrustDialogAccepted, Flag(true));
    TrustIsTidy(trusted, CompletedProjectOnboarding, Flag(true));
    forall i, j | 0 <= i < |t| && 0 <= j < |u| ensures Compatible(t[i], u[j]) {
      assert t[i].path[2] != u[j].path[2];
    }
    TidyConcat(t, u);
    AfterTable(trusted, TrustDialogAccepted, Flag(true));
    AfterTable(trusted, CompletedProjectOnboarding, Flag(true));
    TidyConcat(table, t + u);
    assert keys[0].path[0] != keys[1].path[0];
    DifferentHeads(keys, {CompletedOnboarding, Theme}, table + (t + u), {Projects});
    assert StateEdits(trusted) == keys + (table + (t + u));
  }

  // ---------------------------------------------------------------- preparing

  /** A missing file counts as empty; one that is too large or does not parse is refused. */
  function Read(doc: Option<Document>, size: Fields -> nat): Result<Fields> {
    if doc.None? then Ok(map[])
    else if doc.value.Broken? then Err("invalid")
    else if size(doc.value.fields) > MAX_CONFIG then Err("too large")
    else Ok(doc.value.fields)
  }

  ghost function Edited(doc: Option<Document>, size: Fields -> nat, es: seq<Edit>): Result<Fields>
    requires Rooted(es)
  {
    var f := Read(doc, size);
    if f.Err? then f else ApplyAll(f.value, es)
  }

  lemma AllRooted(pins: Pins, trusted: seq<string>, writable: seq<string>)
    ensures Rooted(CodexEdits(pins, trusted)) && Rooted(SettingsEdits(pins, writable)) && Rooted(StateEdits(trusted))
  {
    PinsTidy(pins);
    assert Rooted(CodexKeys()) && Rooted(CodexTables()) && Rooted(SettingsKeys(writable)) && Rooted(StateKeys());
  }

  /** One file's outcome: the edits applied to what was there. */
  ghost predicate FileEdited(before: Option<Document>, after: Option<Document>, size: Fields -> nat, es: seq<Edit>) {
    Rooted(es) && Edited(before, size, es).Ok? && after == Some(Parsed(Edited(before, size, es).value))
  }

  /** What a successful preparation has done. */
  ghost predicate Prepared(kind: Kind, pins: Pins, trusted: seq<string>, writable: seq<string>, size: Fields -> nat, before: Files, after: Files) {
    match kind
    case Codex => FileEdited(before.codex, after.codex, size, CodexEdits(pins, trusted)) && after == before.(codex := after.codex)
    case Claude =>
      && FileEdited(before.settings, after.settings, size, SettingsEdits(pins, writable))
      && FileEdited(before.state, after.state, size, StateEdits(trusted))
      && after.codex == before.codex
    case Unmapped => pins == Pins(None, None) && after == before
  }

  method ApplyEdits(f: Fields, es: seq<Edit>) returns (r: Result<Fields>)
    requires Rooted(es)
    ensures r == ApplyAll(f, es)
  {
    r := Ok(f);
    for i := 0 to |es|
      invariant r.Ok? && ApplyAll(f, es) == ApplyAll(r.value, es[i..])
    {
      r := Apply(r.value, es[i].path, es[i].change);
      if r.Err? {
        return;
      }
    }
  }

  /** Each directory by its given name and, when different, its canonical one,
      listed once, in order of first mention. */
  function Forms(given: seq<(string, Option<string>)>): seq<string> {
    if given == [] then []
    else
      var g := given[|given| - 1];
      var named := Mention(Forms(given[..|given| - 1]), g.0);
      if g.1.Some? then Mention(named, g.1.value) else named
  }

  function Mention(names: seq<string>, name: string): seq<string> {
    if name in names then names else names + [name]
  }

  predicate AllAbsolute(given: seq<(string, Option<string>)>) { forall i :: 0 <= i < |given| ==> Absolute(given[i].0) }

  lemma {:induction false} FormsAreDistinct(given: seq<(string, Option<string>)>)
    ensures Distinct(Forms(given))
    ensures forall p :: p in Forms(given) <==> exists i :: 0 <= i < |given| && (p == given[i].0 || given[i].1 == Some(p))
    decreases |given|
  {
    if given != [] {
      var n := |given| - 1;
      FormsAreDistinct(given[..n]);
      forall p ensures p in Forms(given) <==> exists i :: 0 <= i < |given| && (p == given[i].0 || given[i].1 == Some(p)) {
        if i :| 0 <= i < |given| && (p == given[i].0 || given[i].1 == Some(p)) {
          assert i < n ==> given[..n][i] == given[i];
        } else {
          assert forall i :: 0 <= i < n ==> given[..n][i] == given[i];
        }
      }
    }
  }

  method TrustedPaths(given: seq<(string, Option<string>)>) returns (r: Result<seq<string>>)
    ensures r.Ok? <==> AllAbsolute(given)
    ensures r.Ok? <==> forall i :: 0 <= i < |given| ==> ['/'] <= given[i].0
    ensures r.Ok? ==> r.value == Forms(given)
  {
    var out: seq<string> := [];
    for i := 0 to |given|
      invariant out == Forms(given[..i]) && AllAbsolute(given[..i])
    {
      assert given[..i + 1][..i] == given[..i];
      if !Absolute(given[i].0) {
        return Err("relative");
      }
      if given[i].0 !in out {
        out := out + [given[i].0];
      }
      if given[i].1.Some? && given[i].1.value !in out {
        out := out + [given[i].1.value];
      }
    }
    assert given[..|given|] == given;
    r := Ok(out);
  }

  /** Exactly what stands in the way of a preparation. */
  ghost predicate CanPrepare(kind: Kind, pins: Pins, given: seq<(string, Option<string>)>, writable: seq<string>, size: Fields -> nat, files: Files) {
    && PinsOk(pins) && AllAbsolute(given)
    && match kind
       case Codex => CanEdit(files.codex, size, CodexEdits(pins, Forms(given)))
       case Claude =>
         && (forall i :: 0 <= i < |writable| ==> Absolute(writable[i]))
         && CanEdit(files.settings, size, SettingsEdits(pins, writable)) && CanEdit(files.state, size, StateEdits(Forms(given)))
       case Unmapped => pins == Pins(None, None)
  }

  ghost predicate CanEdit(doc: Option<Document>, size: Fields -> nat, es: seq<Edit>) {
    Rooted(es) && Edited(doc, size, es).Ok?
  }

  class Home {
    var codex: Option<Document>
    var settings: Option<Document>
    var state: Option<Document>
    /** The length of a configuration's text. */
    const size: Fields -> nat

    function Now(): Files
      reads this
    {
      Files(codex, settings, state)
    }

    /** Succeeds exactly when everything asked for is valid and every file on the
        way can be edited. A Claude home whose state file is refused has its
        settings already rewritten. */
    method Prepare(kind: Kind, pins: Pins, given: seq<(string, Option<string>)>, writable: seq<string>) returns (ok: bool)
      modifies this
      ensures ok <==> CanPrepare(kind, pins, given, writable, size, old(Now()))
      ensures ok ==> Prepared(kind, pins, Forms(given), writable, size, old(Now()), Now())
      ensures !ok ==> codex == old(codex) && state == old(state)
      ensures !ok && settings != old(settings) ==> kind == Claude && FileEdited(old(settings), settings, size, SettingsEdits(pins, writable))
    {
      if !PinsOk(pins) {
        return false;
      }
      var trusted := TrustedPaths(given);
      if trusted.Err? {
        return false;
      }
      match kind
      case Codex => ok := PrepareCodex(pins, trusted.value);
      case Claude => ok := PrepareClaude(pins, trusted.value, writable);
      case Unmapped => ok := pins == Pins(None, None);
    }

    method PrepareCodex(pins: Pins, trusted: seq<string>) returns (ok: bool)
      modifies this`codex
      ensures ok <==> CanEdit(old(codex), size, CodexEdits(pins, trusted))
      ensures ok ==> FileEdited(old(codex), codex, size, CodexEdits(pins, trusted))
      ensures !ok ==> codex == old(codex)
    {
      AllRooted(pins, trusted, []);
      var f := Read(codex, size);
      if f.Err? {
        return false;
      }
      var g := ApplyEdits(f.value, CodexEdits(pins, trusted));
      if g.Err? {
        return false;
      }
      codex := Some(Parsed(g.value));
      return true;
    }

    method PrepareClaude(pins: Pins, trusted: seq<string>, writable: seq<string>) returns (ok: bool)
      modifies this`settings, this`state
      ensures ok <==>
        && (forall i :: 0 <= i < |writable| ==> Absolute(writable[i]))
        && CanEdit(old(settings), size, SettingsEdits(pins, writable)) && CanEdit(old(state), size, StateEdits(trusted))
      ensures ok ==> FileEdited(old(settings), settings, size, SettingsEdits(pins, writable))
      ensures ok ==> FileEdited(old(state), state, size, StateEdits(trusted))
      ensures !ok ==> state == old(state) && (settings == old(settings) || FileEdited(old(settings), settings, size, SettingsEdits(pins, writable)))
    {
      AllRooted(pins, trusted, writable);
      var f := Read(settings, size);
      if f.Err? || exists i :: 0 <= i < |writable| && !Absolute(writable[i]) {
        return false;
      }
      var g := ApplyEdits(f.value, SettingsEdits(pins, writable));
      if g.Err? {
        return false;
      }
      settings := Some(Parsed(g.value));
      var h := Read(state, size);
      if h.Err? {
        return false;
      }
      var e := ApplyEdits(h.value, StateEdits(trusted));
      if e.Err? {
        return false;
      }
      state := Some(Parsed(e.value));
      return true;
    }

    /** The pins the configuration carries right now. */
    method ReadPins(kind: Kind) returns (r: Result<Pins>)
      ensures r == PinsIn(kind, Now(), size)
    {
      if kind == Unmapped {
        return Ok(Pins(None, None));
      }
      var f := Read(if kind == Codex then codex else settings, size);
      if f.Err? {
        return Err(f.error);
      }
      r := Ok(Pins(TextAt(f.value, Model), TextAt(f.value, Effort)));
    }
  }

  function TextAt(f: Fields, k: Key): Option<string> {
    if k in f && f[k].Text? then Some(f[k].text) else None
  }

  function PinsIn(kind: Kind, files: Files, size: Fields -> nat): Result<Pins> {
    if kind == Unmapped then Ok(Pins(None, None))
    else
      var f := Read(if kind == Codex then files.codex else files.settings, size);
      if f.Err? then Err(f.error) else Ok(Pins(TextAt(f.value, Model), TextAt(f.value, Effort)))
  }

  // ---------------------------------------------------------------- theorems

  predicate Fits(doc: Option<Document>, size: Fields -> nat) {
    doc.Some? && doc.value.Parsed? && size(doc.value.fields) <= MAX_CONFIG
  }

  /** Repeating the edits of one file changes nothing, and works exactly when
      the file written is still small enough to be read. */
  lemma FileRepeats(before: Option<Document>, after: Option<Document>, size: Fields -> nat, es: seq<Edit>)
    requires Tidy(es) && FileEdited(before, after, size, es)
    ensures FileEdited(after, after, size, es) <==> Fits(after, size)
    ensures forall again :: FileEdited(after, again, size, es) ==> again == after
  {
    RepeatChangesNothing(Read(before, size).value, es);
  }

  /** Preparing is idempotent: a repeat that succeeds changes nothing, and it
      succeeds exactly when the files written do not exceed the size limit. */
  lemma PrepareIsIdempotent(kind: Kind, pins: Pins, trusted: seq<string>, writable: seq<string>, size: Fields -> nat, before: Files, after: Files)
    requires Distinct(trusted) && Prepared(kind, pins, trusted, writable, size, before, after)
    ensures forall again :: Prepared(kind, pins, trusted, writable, size, after, again) ==> again == after
    ensures Prepared(kind, pins, trusted, writable, size, after, after) <==>
            match kind
            case Codex => Fits(after.codex, size)
            case Claude => Fits(after.settings, size) && Fits(after.state, size)
            case Unmapped => true
  {
    match kind
    case Codex =>
      CodexTidy(pins, trusted);
      FileRepeats(before.codex, after.codex, size, CodexEdits(pins, trusted));
    case Claude =>
      SettingsTidy(pins, writable);
      StateTidy(trusted);
      FileRepeats(before.settings, after.settings, size, SettingsEdits(pins, writable));
      FileRepeats(before.state, after.state, size, StateEdits(trusted));
    case Unmapped =>
  }

  /** However length is measured: a Codex file at the limit that the edits make
      longer is prepared once and refused when it is to be prepared again. */
  lemma OutgrownIsRefused(f: Fields, size: Fields -> nat, pins: Pins, given: seq<(string, Option<string>)>, after: Files)
    requires PinsOk(pins) && AllAbsolute(given) && size(f) == MAX_CONFIG
    requires CanEdit(Some(Parsed(f)), size, CodexEdits(pins, Forms(given)))
    requires size(Edited(Some(Parsed(f)), size, CodexEdits(pins, Forms(given))).value) > size(f)
    requires Prepared(Codex, pins, Forms(given), [], size, Files(Some(Parsed(f)), None, None), after)
    ensures CanPrepare(Codex, pins, given, [], size, Files(Some(Parsed(f)), None, None))
    ensures !CanPrepare(Codex, pins, given, [], size, after)
  {
  }

  /** There are such files: any at the limit that sets no owned key, if a key more
      makes the text longer. */
  lemma AtTheLimitIsPrepared(f: Fields, size: Fields -> nat)
    requires size(f) == MAX_CONFIG && ApprovalPolicy !in f && (WorkspaceWrite in f ==> f[WorkspaceWrite].Object?) && (Projects in f ==> f[Projects].Object?)
    requires forall g: Fields :: f.Keys < g.Keys ==> size(g) > size(f)
    ensures CanEdit(Some(Parsed(f)), size, CodexEdits(Pins(None, None), Forms([])))
    ensures size(Edited(Some(Parsed(f)), size, CodexEdits(Pins(None, None), Forms([]))).value) > size(f)
  {
    var es := CodexEdits(Pins(None, None), []);
    assert Forms([]) == [];
    CodexWorksIff(f, Pins(None, None), []);
    CodexTidy(Pins(None, None), []);
    CodexIndices(Pins(None, None), []);
    var g := ApplyAll(f, es).value;
    FileForces(Some(Parsed(f)), Some(Parsed(g)), size, es, 0);
    assert Lookup(g, [ApprovalPolicy]) == Some(Text("never"));
    KeysGrow(f, es);
    assert f.Keys < g.Keys;
  }

  lemma {:induction false} KeysGrow(f: Fields, es: seq<Edit>)
    requires Rooted(es) && ApplyAll(f, es).Ok?
    ensures f.Keys <= ApplyAll(f, es).value.Keys
    decreases |es|
  {
    if es != [] {
      var g := Apply(f, es[0].path, es[0].change).value;
      assert f.Keys <= g.Keys;
      KeysGrow(g, es[1..]);
    }
  }

  /** Every key on no edited path keeps its value, at every level of the file. */
  lemma FilePreserves(before: Option<Document>, after: Option<Document>, size: Fields -> nat, es: seq<Edit>, q: Path)
    requires FileEdited(before, after, size, es) && q != [] && forall i :: 0 <= i < |es| ==> Spares(es[i].path, es[i].change, q)
    ensures Lookup(after.value.fields, q) == Lookup(Read(before, size).value, q)
  {
    AllPreserve(Read(before, size).value, es, q);
  }

  /** Every edit shows in the file written: forced keys have their values, and
      every listed text is in its list. */
  lemma FileForces(before: Option<Document>, after: Option<Document>, size: Fields -> nat, es: seq<Edit>, i: nat)
    requires Tidy(es) && FileEdited(before, after, size, es) && i < |es|
    ensures match es[i].change
            case Put(v) => Lookup(after.value.fields, es[i].path) == Some(v)
            case Default(_) => Lookup(after.value.fields, es[i].path).Some?
            case Table => Lookup(after.value.fields, es[i].path).Some? && Lookup(after.value.fields, es[i].path).value.Object?
            case Include(texts) =>
              && Lookup(after.value.fields, es[i].path).Some? && Lookup(after.value.fields, es[i].path).value.List?
              && forall t :: t in texts ==> Text(t) in Lookup(after.value.fields, es[i].path).value.items
  {
    AllHold(Read(before, size).value, es, i);
    HeldShows(after.value.fields, es[i]);
    if es[i].change.Include? {
      AddMissingKeeps(Lookup(after.value.fields, es[i].path).value.items, es[i].change.texts);
    }
  }

  /** A permission list keeps its entries in place and gains each missing one
      once; an absent list starts empty. */
  lemma ListsGrowOnce(before: Option<Document>, after: Option<Document>, size: Fields -> nat, pins: Pins, writable: seq<string>, allow: bool)
    requires FileEdited(before, after, size, SettingsEdits(pins, writable))
    ensures var path, texts := if allow then [Permissions, Allow] else [Permissions, AdditionalDirectories], if allow then CLAUDE_ALLOW else writable;
            var was, is_ := Lookup(Read(before, size).value, path), Lookup(after.value.fields, path);
            && (was.Some? ==> was.value.List?) && is_.Some? && is_.value.List?
            && var items, grown := if was.Some? then was.value.items else [], is_.value.items;
               && items <= grown && (forall t :: t in texts ==> Text(t) in grown)
               && (forall v :: v in grown ==> v in items || exists t :: t in texts && v == Text(t))
               && (forall i, j :: 0 <= i < j && |items| <= j < |grown| ==> grown[i] != grown[j])
  {
    var es := SettingsEdits(pins, writable);
    SettingsTidy(pins, writable);
    var i := |PinEdits(pins)| + if allow then 1 else 2;
    SettingsApart(pins, writable, i);
    var f := Read(before, size).value;
    OnlyEditSets(f, es, i);
    var was := Lookup(f, es[i].path);
    var items := if was.Some? then was.value.items else [];
    AddMissingKeeps(items, es[i].change.texts);
    forall j, k | 0 <= j < k && |items| <= k < |AddMissing(items, es[i].change.texts)|
      ensures AddMissing(items, es[i].change.texts)[j] != AddMissing(items, es[i].change.texts)[k]
    {
      AddMissingOnce(items, es[i].change.texts, j, k);
    }
  }

  lemma SettingsApart(pins: Pins, writable: seq<string>, i: nat)
    requires |PinEdits(pins)| <= i < |SettingsEdits(pins, writable)|
    ensures var es := SettingsEdits(pins, writable);
            forall j :: 0 <= j < |es| && j != i ==> Unrelated(es[j].path, es[i].path)
  {
    SettingsTidy(pins, writable);
    var es := SettingsEdits(pins, writable);
    forall j | 0 <= j < |es| && j != i ensures Unrelated(es[j].path, es[i].path) {
      if j < i {
        assert Compatible(es[j], es[i]);
      } else {
        assert Compatible(es[i], es[j]);
      }
    }
  }

  /** What the product owns in a Codex configuration, whatever it said before. */
  lemma CodexForces(before: Option<Document>, after: Option<Document>, size: Fields -> nat, pins: Pins, trusted: seq<string>, d: string)
    requires Distinct(trusted) && FileEdited(before, after, size, CodexEdits(pins, trusted))
    ensures var f := after.value.fields;
            && Lookup(f, [ApprovalPolicy]) == Some(Text("never"))
            && Lookup(f, [SandboxMode]) == Some(Text("workspace-write"))
            && Lookup(f, [CheckForUpdate]) == Some(Flag(false))
            && Lookup(f, [WorkspaceWrite, NetworkAccess]) == Some(Flag(false))
            && (d in trusted ==> Lookup(f, [Projects, Named(d), TrustLevel]) == Some(Text("trusted")))
  {
    var es := CodexEdits(pins, trusted);
    var n := 3 + |PinEdits(pins)|;
    CodexTidy(pins, trusted);
    CodexIndices(pins, trusted);
    FileForces(before, after, size, es, 0);
    FileForces(before, after, size, es, 1);
    FileForces(before, after, size, es, 2);
    FileForces(before, after, size, es, n);
    if d in trusted {
      var i :| 0 <= i < |trusted| && trusted[i] == d;
      FileForces(before, after, size, es, n + 2 + i);
    }
  }

  lemma CodexIndices(pins: Pins, trusted: seq<string>)
    ensures var es, n := CodexEdits(pins, trusted), 3 + |PinEdits(pins)|;
            && |es| == n + 2 + |trusted|
            && es[0] == Edit([ApprovalPolicy], Put(Text("never"))) && es[1] == Edit([SandboxMode], Put(Text("workspace-write")))
            && es[2] == Edit([CheckForUpdate], Put(Flag(false))) && es[n + 1] == Edit([Projects], Table) && es[n] == Edit([WorkspaceWrite, NetworkAccess], Put(Flag(false)))
            && (forall i :: 0 <= i < |trusted| ==> es[n + 2 + i] == Edit([Projects, Named(trusted[i]), TrustLevel], Put(Text("trusted"))))
  {
  }

  /** What the product owns in a Claude home. */
  lemma ClaudeForces(before: Files, after: Files, size: Fields -> nat, pins: Pins, trusted: seq<string>, writable: seq<string>, d: string)
    requires Distinct(trusted) && Prepared(Claude, pins, trusted, writable, size, before, after)
    ensures var f, g := after.settings.value.fields, after.state.value.fields;
            && Lookup(f, [Permissions, DefaultMode]) == Some(Text("acceptEdits"))
            && Lookup(f, [Env, DisableAutoupdater]) == Some(Text("1"))
            && Lookup(g, [CompletedOnboarding]) == Some(Flag(true))
            && (d in trusted ==> Lookup(g, [Projects, Named(d), TrustDialogAccepted]) == Some(Flag(true)))
            && (d in trusted ==> Lookup(g, [Projects, Named(d), CompletedProjectOnboarding]) == Some(Flag(true)))
  {
    var es, ts, n := SettingsEdits(pins, writable), StateEdits(trusted), |PinEdits(pins)|;
    SettingsTidy(pins, writable);
    StateTidy(trusted);
    assert es[n] == Edit([Permissions, DefaultMode], Put(Text("acceptEdits"))) && es[n + 3] == Edit([Env, DisableAutoupdater], Put(Text("1")));
    FileForces(before.settings, after.settings, size, es, n);
    FileForces(before.settings, after.settings, size, es, n + 3);
    FileForces(before.state, after.state, size, ts, 0);
    if d in trusted {
      var i :| 0 <= i < |trusted| && trusted[i] == d;
      assert ts[3 + i] == Edit([Projects, Named(d), TrustDialogAccepted], Put(Flag(true)));
      assert ts[3 + |trusted| + i] == Edit([Projects, Named(d), CompletedProjectOnboarding], Put(Flag(true)));
      FileForces(before.state, after.state, size, ts, 3 + i);
      FileForces(before.state, after.state, size, ts, 3 + |trusted| + i);
    }
  }

  /** The places a Codex preparation may write, or has to pass through. */
  predicate CodexTouches(pins: Pins, trusted: seq<string>, q: Path)
    requires q != []
  {
    || q[0] == ApprovalPolicy || q[0] == SandboxMode || q[0] == CheckForUpdate
    || (q[0] == Model && pins.model.Some?) || (q[0] == Effort && pins.effort.Some?)
    || (q[0] == WorkspaceWrite && (|q| == 1 || q[1] == NetworkAccess))
    || (q[0] == Projects && (|q| == 1 || (q[1].Named? && q[1].name in trusted && (|q| == 2 || q[2] == TrustLevel))))
  }

  lemma CodexPreserves(before: Option<Document>, after: Option<Document>, size: Fields -> nat, pins: Pins, trusted: seq<string>, q: Path)
    requires FileEdited(before, after, size, CodexEdits(pins, trusted)) && q != [] && !CodexTouches(pins, trusted, q)
    ensures Lookup(after.value.fields, q) == Lookup(Read(before, size).value, q)
  {
    var es := CodexEdits(pins, trusted);
    forall i | 0 <= i < |es| ensures Spares(es[i].path, es[i].change, q) {
      CodexSpares(pins, trusted, q, i);
    }
    FilePreserves(before, after, size, es, q);
  }

  lemma Diverges(p: Path, q: Path, k: nat)
    requires k < |p| && k < |q| && p[k] != q[k]
    ensures Unrelated(p, q)
  {
  }

  /** A path that avoids a directory's trust flag parts from it somewhere. */
  lemma TrustDiverges(trusted: seq<string>, d: string, flag: Key, q: Path)
    requires d in trusted && q != []
    requires q[0] == Projects ==> |q| > 1 && (q[1] == Named(d) ==> |q| > 2 && q[2] != flag)
    ensures Unrelated([Projects, Named(d), flag], q)
  {
    var p := [Projects, Named(d), flag];
    Diverges(p, q, if q[0] != Projects then 0 else if q[1] != Named(d) then 1 else 2);
  }

  lemma PinsDiverge(pins: Pins, q: Path, i: nat)
    requires q != [] && i < |PinEdits(pins)|
    requires !(q[0] == Model && pins.model.Some?) && !(q[0] == Effort && pins.effort.Some?)
    ensures Unrelated(PinEdits(pins)[i].path, q)
  {
    Diverges(PinEdits(pins)[i].path, q, 0);
  }

  lemma CodexSpares(pins: Pins, trusted: seq<string>, q: Path, i: nat)
    requires q != [] && !CodexTouches(pins, trusted, q) && i < |CodexEdits(pins, trusted)|
    ensures var e := CodexEdits(pins, trusted)[i]; Spares(e.path, e.change, q)
  {
    var e, n := CodexEdits(pins, trusted)[i], 3 + |PinEdits(pins)|;
    CodexIndices(pins, trusted);
    if n + 2 <= i {
      TrustDiverges(trusted, trusted[i - n - 2], TrustLevel, q);
    } else if i == n + 1 {
      TableSpares(q);
    } else if i == n {
      Diverges(e.path, q, if q[0] != WorkspaceWrite then 0 else 1);
    } else if 3 <= i {
      assert e == PinEdits(pins)[i - 3];
      PinsDiverge(pins, q, i - 3);
    } else {
      Diverges(e.path, q, 0);
    }
  }

  lemma TableSpares(q: Path)
    requires q != [] && (q[0] == Projects ==> |q| > 1)
    ensures Spares([Projects], Table, q)
  {
    assert q[0] == Projects ==> q == [Projects] + q[1..];
  }

  /** The same for the two Claude files. */
  predicate SettingsTouches(pins: Pins, q: Path)
    requires q != []
  {
    || (q[0] == Model && pins.model.Some?) || (q[0] == Effort && pins.effort.Some?)
    || (q[0] == Permissions && (|q| == 1 || q[1] == DefaultMode || q[1] == Allow || q[1] == AdditionalDirectories))
    || (q[0] == Env && (|q| == 1 || q[1] == DisableAutoupdater))
  }

  predicate StateTouches(trusted: seq<string>, q: Path)
    requires q != []
  {
    || q[0] == CompletedOnboarding || q[0] == Theme
    || (q[0] == Projects && (|q| == 1 || (q[1].Named? && q[1].name in trusted && (|q| == 2 || q[2] == TrustDialogAccepted || q[2] == CompletedProjectOnboarding))))
  }

  lemma ClaudePreserves(before: Files, after: Files, size: Fields -> nat, pins: Pins, trusted: seq<string>, writable: seq<string>, q: Path)
    requires Prepared(Claude, pins, trusted, writable, size, before, after) && q != []
    ensures !SettingsTouches(pins, q) ==> Lookup(after.settings.value.fields, q) == Lookup(Read(before.settings, size).value, q)
    ensures !StateTouches(trusted, q) ==> Lookup(after.state.value.fields, q) == Lookup(Read(before.state, size).value, q)
  {
    if !SettingsTouches(pins, q) {
      var es := SettingsEdits(pins, writable);
      forall i | 0 <= i < |es| ensures Spares(es[i].path, es[i].change, q) {
        SettingsSpare(pins, writable, q, i);
      }
      FilePreserves(before.settings, after.settings, size, es, q);
    }
    if !StateTouches(trusted, q) {
      var es := StateEdits(trusted);
      forall i | 0 <= i < |es| ensures Spares(es[i].path, es[i].change, q) {
        StateSpares(trusted, q, i);
      }
      FilePreserves(before.state, after.state, size, es, q);
    }
  }

  // ---------------------------------------------------------------- trust

  predicate CodexTrusts(f: Fields, d: string) { Lookup(f, [Projects, Named(d), TrustLevel]) == Some(Text("trusted")) }

  /** `flag` is one of the two that Claude keeps per directory. */
  predicate ClaudeTrusts(f: Fields, flag: Key, d: string) { Lookup(f, [Projects, Named(d), flag]) == Some(Flag(true)) }

  /** Exactly the given directories end up trusted exactly if the file trusted no
      other before: trust is added and never withdrawn. */
  lemma CodexTrustsExactlyIff(before: Option<Document>, after: Option<Document>, size: Fields -> nat, pins: Pins, trusted: seq<string>)
    requires Distinct(trusted) && FileEdited(before, after, size, CodexEdits(pins, trusted))
    ensures (forall d :: CodexTrusts(after.value.fields, d) <==> d in trusted) <==>
            (forall d :: CodexTrusts(Read(before, size).value, d) ==> d in trusted)
  {
    forall d ensures CodexTrusts(after.value.fields, d) <==> d in trusted || CodexTrusts(Read(before, size).value, d) {
      CodexForces(before, after, size, pins, trusted, d);
      if d !in trusted {
        CodexPreserves(before, after, size, pins, trusted, [Projects, Named(d), TrustLevel]);
      }
    }
  }

  lemma ClaudeTrustsExactlyIff(before: Files, after: Files, size: Fields -> nat, pins: Pins, trusted: seq<string>, writable: seq<string>, flag: Key)
    requires Distinct(trusted) && Prepared(Claude, pins, trusted, writable, size, before, after)
    requires flag == TrustDialogAccepted || flag == CompletedProjectOnboarding
    ensures (forall d :: ClaudeTrusts(after.state.value.fields, flag, d) <==> d in trusted) <==>
            (forall d :: ClaudeTrusts(Read(before.state, size).value, flag, d) ==> d in trusted)
  {
    forall d ensures ClaudeTrusts(after.state.value.fields, flag, d) <==> d in trusted || ClaudeTrusts(Read(before.state, size).value, flag, d) {
      ClaudeForces(before, after, size, pins, trusted, writable, d);
      if d !in trusted {
        ClaudePreserves(before, after, size, pins, trusted, writable, [Projects, Named(d), flag]);
      }
    }
  }

  const OldTrust: Fields := map[Projects := Object(map[Named("/old") := Object(map[TrustLevel := Text("trusted")])])]
  const OldClaudeTrust: Fields := map[Projects := Object(map[Named("/old") := Object(map[TrustDialogAccepted := Flag(true)])])]

  /** A home that trusts `/old` is prepared for no directory at all, and still trusts it. */
  lemma StaleTrustStays(size: Fields -> nat)
    requires size(OldTrust) <= MAX_CONFIG && size(OldClaudeTrust) <= MAX_CONFIG
    ensures Rooted(CodexEdits(Pins(None, None), [])) && Rooted(StateEdits([]))
    ensures var codex := Edited(Some(Parsed(OldTrust)), size, CodexEdits(Pins(None, None), []));
            codex.Ok? && CodexTrusts(codex.value, "/old")
    ensures var state := Edited(Some(Parsed(OldClaudeTrust)), size, StateEdits([]));
            state.Ok? && ClaudeTrusts(state.value, TrustDialogAccepted, "/old")
  {
    CodexWorksIff(OldTrust, Pins(None, None), []);
    StateWorksIff(OldClaudeTrust, []);
    var codex := ApplyAll(OldTrust, CodexEdits(Pins(None, None), [])).value;
    var state := ApplyAll(OldClaudeTrust, StateEdits([])).value;
    var p, q := [Projects, Named("/old"), TrustLevel], [Projects, Named("/old"), TrustDialogAccepted];
    OldPaths();
    CodexPreserves(Some(Parsed(OldTrust)), Some(Parsed(codex)), size, Pins(None, None), [], p);
    forall i | 0 <= i < |StateEdits([])| ensures Spares(StateEdits([])[i].path, StateEdits([])[i].change, q) {
      StateSpares([], q, i);
    }
    FilePreserves(Some(Parsed(OldClaudeTrust)), Some(Parsed(state)), size, StateEdits([]), q);
  }

  lemma OldPaths()
    ensures CodexTrusts(OldTrust, "/old") && ClaudeTrusts(OldClaudeTrust, TrustDialogAccepted, "/old")
  {
    var d := Named("/old");
    var p, q := [Projects, d, TrustLevel], [Projects, d, TrustDialogAccepted];
    assert p[1..] == [d, TrustLevel] && [d, TrustLevel][1..] == [TrustLevel];
    assert q[1..] == [d, TrustDialogAccepted] && [d, TrustDialogAccepted][1..] == [TrustDialogAccepted];
    assert Lookup(map[TrustLevel := Text("trusted")], [TrustLevel]) == Some(Text("trusted"));
    assert Lookup(map[TrustDialogAccepted := Flag(true)], [TrustDialogAccepted]) == Some(Flag(true));
    assert Lookup(map[d := Object(map[TrustLevel := Text("trusted")])], [d, TrustLevel]) == Some(Text("trusted"));
    assert Lookup(map[d := Object(map[TrustDialogAccepted := Flag(true)])], [d, TrustDialogAccepted]) == Some(Flag(true));
  }

  lemma SettingsSpare(pins: Pins, writable: seq<string>, q: Path, i: nat)
    requires q != [] && !SettingsTouches(pins, q) && i < |SettingsEdits(pins, writable)|
    ensures Unrelated(SettingsEdits(pins, writable)[i].path, q)
  {
    var e, n := SettingsEdits(pins, writable)[i], |PinEdits(pins)|;
    if i < n {
      assert e == PinEdits(pins)[i];
      PinsDiverge(pins, q, i);
    } else {
      assert e == SettingsKeys(writable)[i - n];
      Diverges(e.path, q, if q[0] != e.path[0] then 0 else 1);
    }
  }

  lemma StateSpares(trusted: seq<string>, q: Path, i: nat)
    requires q != [] && !StateTouches(trusted, q) && i < |StateEdits(trusted)|
    ensures var e := StateEdits(trusted)[i]; Spares(e.path, e.change, q)
  {
    var e := StateEdits(trusted)[i];
    if i < 2 {
      Diverges(e.path, q, 0);
    } else if i == 2 {
      TableSpares(q);
    } else {
      var d := if i < 3 + |trusted| then trusted[i - 3] else trusted[i - 3 - |trusted|];
      var flag := if i < 3 + |trusted| then TrustDialogAccepted else CompletedProjectOnboarding;
      assert e.path == [Projects, Named(d), flag];
      TrustDiverges(trusted, d, flag, q);
    }
  }

  lemma PinShows(before: Option<Document>, after: Option<Document>, size: Fields -> nat, es: seq<Edit>, k: Key, pin: Option<string>)
    requires Tidy(es) && FileEdited(before, after, size, es) && PinShown(es, k, pin)
    ensures TextAt(after.value.fields, k) == if pin.Some? then pin else TextAt(Read(before, size).value, k)
  {
    var f, g := Read(before, size).value, after.value.fields;
    if pin.Some? {
      var i :| 0 <= i < |es| && es[i] == Edit([k], Put(Text(pin.value)));
      FileForces(before, after, size, es, i);
      assert Lookup(g, [k]) == Some(Text(pin.value));
    } else {
      FilePreserves(before, after, size, es, [k]);
      assert Lookup(g, [k]) == Lookup(f, [k]);
    }
  }

  /** The pin's edit is in the list or, without a pin, nothing in it is about the key. */
  ghost predicate PinShown(es: seq<Edit>, k: Key, pin: Option<string>) {
    && Rooted(es)
    && if pin.Some? then exists i :: 0 <= i < |es| && es[i] == Edit([k], Put(Text(pin.value)))
       else forall i :: 0 <= i < |es| ==> es[i].path[0] != k
  }

  lemma PinsAmong(first: seq<Edit>, pins: Pins, rest: seq<Edit>)
    requires Rooted(first) && Rooted(rest)
    requires forall i :: 0 <= i < |first| ==> first[i].path[0] != Model && first[i].path[0] != Effort
    requires forall i :: 0 <= i < |rest| ==> rest[i].path[0] != Model && rest[i].path[0] != Effort
    ensures PinShown(first + (PinEdits(pins) + rest), Model, pins.model)
    ensures PinShown(first + (PinEdits(pins) + rest), Effort, pins.effort)
  {
    var own, es := PinEdits(pins), first + (PinEdits(pins) + rest);
    PinsTidy(pins);
    assert forall i :: 0 <= i < |own| ==> es[|first| + i] == own[i];
    assert pins.model.Some? ==> es[|first|] == own[0] == Edit([Model], Put(Text(pins.model.value)));
    assert pins.effort.Some? ==> es[|first| + |own| - 1] == own[|own| - 1] == Edit([Effort], Put(Text(pins.effort.value)));
  }

  lemma CodexPins(pins: Pins, trusted: seq<string>)
    ensures PinShown(CodexEdits(pins, trusted), Model, pins.model) && PinShown(CodexEdits(pins, trusted), Effort, pins.effort)
  {
    PinsAmong(CodexKeys(), pins, CodexTables() + TrustEdits(trusted, TrustLevel, Text("trusted")));
  }

  lemma SettingsPins(pins: Pins, writable: seq<string>)
    ensures PinShown(SettingsEdits(pins, writable), Model, pins.model) && PinShown(SettingsEdits(pins, writable), Effort, pins.effort)
  {
    assert [] + (PinEdits(pins) + SettingsKeys(writable)) == SettingsEdits(pins, writable);
    PinsAmong([], pins, SettingsKeys(writable));
  }

  lemma FilePins(before: Option<Document>, after: Option<Document>, size: Fields -> nat, es: seq<Edit>, pins: Pins)
    requires Tidy(es) && FileEdited(before, after, size, es) && PinShown(es, Model, pins.model) && PinShown(es, Effort, pins.effort)
    ensures TextAt(after.value.fields, Model) == if pins.model.Some? then pins.model else TextAt(Read(before, size).value, Model)
    ensures TextAt(after.value.fields, Effort) == if pins.effort.Some? then pins.effort else TextAt(Read(before, size).value, Effort)
  {
    PinShows(before, after, size, es, Model, pins.model);
    PinShows(before, after, size, es, Effort, pins.effort);
  }

  /** Reading the pins back gives each pin that was asked for, and otherwise what
      the configuration said before. */
  lemma PinsReadBack(kind: Kind, pins: Pins, trusted: seq<string>, writable: seq<string>, size: Fields -> nat, before: Files, after: Files)
    requires Distinct(trusted) && Prepared(kind, pins, trusted, writable, size, before, after) && kind != Unmapped
    requires Fits(if kind == Codex then after.codex else after.settings, size)
    ensures PinsIn(kind, before, size).Ok? && PinsIn(kind, after, size).Ok?
    ensures var was, is_ := PinsIn(kind, before, size).value, PinsIn(kind, after, size).value;
            is_ == Pins(if pins.model.Some? then pins.model else was.model, if pins.effort.Some? then pins.effort else was.effort)
  {
    if kind == Codex {
      CodexTidy(pins, trusted);
      CodexPins(pins, trusted);
      FilePins(before.codex, after.codex, size, CodexEdits(pins, trusted), pins);
    } else {
      SettingsTidy(pins, writable);
      SettingsPins(pins, writable);
      FilePins(before.settings, after.settings, size, SettingsEdits(pins, writable), pins);
    }
  }

  // ---------------------------------------------------------------- when preparing works

  /** What stands below a table of the file. */
  function Below(f: Fields, a: Key, b: Key): Option<Value> {
    if a in f && f[a].Object? then At(f[a].fields, b) else None
  }

  lemma PassTop(f: Fields, k: Key, c: Change)
    ensures Passable(f, [k], c) <==> Suits(At(f, k), c)
  {
  }

  lemma PassBelow(f: Fields, a: Key, b: Key, c: Change)
    ensures Passable(f, [a, b], c) <==> TableOrNone(At(f, a)) && Suits(Below(f, a, b), c)
  {
    var p := [a, b];
    assert p[..1] == [a] && p[1..] == [b];
    assert Lookup(f, [a]) == At(f, a) && Lookup(f, p) == Below(f, a, b);
  }

  lemma PassTrust(f: Fields, d: string, flag: Key, v: Value)
    ensures Passable(f, [Projects, Named(d), flag], Put(v)) <==> TableOrNone(At(f, Projects)) && TableOrNone(Below(f, Projects, Named(d)))
  {
    var p := [Projects, Named(d), flag];
    assert p[..1] == [Projects] && p[..2] == [Projects, Named(d)] && p[..2][1..] == [Named(d)];
    assert Lookup(f, p[..1]) == At(f, Projects) && Lookup(f, p[..2]) == Below(f, Projects, Named(d));
  }

  lemma PassConcat(f: Fields, a: seq<Edit>, b: seq<Edit>)
    requires Rooted(a) && Rooted(b)
    ensures Rooted(a + b) && (AllPassable(f, a + b) <==> AllPassable(f, a) && AllPassable(f, b))
  {
    var es := a + b;
    assert forall i :: 0 <= i < |a| ==> es[i] == a[i];
    assert forall i :: 0 <= i < |b| ==> es[|a| + i] == b[i];
  }

  /** A value of another kind must not be where the trusted directories go. */
  predicate ProjectsOpen(f: Fields, trusted: seq<string>) {
    Projects in f ==>
      && f[Projects].Object?
      && forall i :: 0 <= i < |trusted| && Named(trusted[i]) in f[Projects].fields ==> f[Projects].fields[Named(trusted[i])].Object?
  }

  lemma TrustPasses(f: Fields, trusted: seq<string>, flag: Key, v: Value)
    requires TableOrNone(At(f, Projects))
    ensures Rooted(TrustEdits(trusted, flag, v)) && (AllPassable(f, TrustEdits(trusted, flag, v)) <==> ProjectsOpen(f, trusted))
  {
    var es := TrustEdits(trusted, flag, v);
    forall i | 0 <= i < |es| ensures Passable(f, es[i].path, es[i].change) <==> TableOrNone(Below(f, Projects, Named(trusted[i]))) {
      PassTrust(f, trusted[i], flag, v);
    }
    if AllPassable(f, es) {
      forall i | 0 <= i < |trusted| ensures TableOrNone(Below(f, Projects, Named(trusted[i]))) {
        assert Passable(f, es[i].path, es[i].change);
      }
    }
  }

  lemma PinsPass(f: Fields, pins: Pins)
    ensures Rooted(PinEdits(pins)) && AllPassable(f, PinEdits(pins))
  {
    var es := PinEdits(pins);
    forall i | 0 <= i < |es| ensures Passable(f, es[i].path, es[i].change) {
      PassTop(f, es[i].path[0], es[i].change);
    }
  }

  lemma CodexKeysPass(f: Fields)
    ensures Rooted(CodexKeys() + CodexTables())
    ensures AllPassable(f, CodexKeys() + CodexTables()) <==> TableOrNone(At(f, WorkspaceWrite)) && TableOrNone(At(f, Projects))
  {
    var es := CodexKeys() + CodexTables();
    PassTop(f, ApprovalPolicy, es[0].change);
    PassTop(f, SandboxMode, es[1].change);
    PassTop(f, CheckForUpdate, es[2].change);
    PassBelow(f, WorkspaceWrite, NetworkAccess, es[3].change);
    PassTop(f, Projects, Table);
    assert AllPassable(f, es) ==> Passable(f, es[3].path, es[3].change) && Passable(f, es[4].path, es[4].change);
  }

  /** The Codex edits work exactly on a file with tables where they go. */
  lemma CodexWorksIff(f: Fields, pins: Pins, trusted: seq<string>)
    requires Distinct(trusted)
    ensures Rooted(CodexEdits(pins, trusted))
    ensures ApplyAll(f, CodexEdits(pins, trusted)).Ok? <==> (WorkspaceWrite in f ==> f[WorkspaceWrite].Object?) && ProjectsOpen(f, trusted)
  {
    var trust := TrustEdits(trusted, TrustLevel, Text("trusted"));
    CodexTidy(pins, trusted);
    AllWorkIff(f, CodexEdits(pins, trusted));
    PinsPass(f, pins);
    CodexKeysPass(f);
    if TableOrNone(At(f, Projects)) { TrustPasses(f, trusted, TrustLevel, Text("trusted")); }
    PassConcat(f, CodexTables(), trust);
    PassConcat(f, PinEdits(pins), CodexTables() + trust);
    PassConcat(f, CodexKeys(), PinEdits(pins) + (CodexTables() + trust));
    PassConcat(f, CodexKeys(), CodexTables());
  }

  predicate ListOrNone(v: Option<Value>) { v.Some? ==> v.value.List? }

  lemma SettingsKeysPass(f: Fields, writable: seq<string>)
    ensures Rooted(SettingsKeys(writable))
    ensures AllPassable(f, SettingsKeys(writable)) <==>
              && TableOrNone(At(f, Permissions)) && TableOrNone(At(f, Env))
              && ListOrNone(Below(f, Permissions, Allow)) && ListOrNone(Below(f, Permissions, AdditionalDirectories))
  {
    var es := SettingsKeys(writable);
    PassBelow(f, Permissions, DefaultMode, es[0].change);
    PassBelow(f, Permissions, Allow, es[1].change);
    PassBelow(f, Permissions, AdditionalDirectories, es[2].change);
    PassBelow(f, Env, DisableAutoupdater, es[3].change);
    if AllPassable(f, es) {
      assert Passable(f, es[0].path, es[0].change) && Passable(f, es[1].path, es[1].change);
      assert Passable(f, es[2].path, es[2].change) && Passable(f, es[3].path, es[3].change);
    }
  }

  lemma SettingsWorkIff(f: Fields, pins: Pins, writable: seq<string>)
    ensures Rooted(SettingsEdits(pins, writable))
    ensures ApplyAll(f, SettingsEdits(pins, writable)).Ok? <==>
              && TableOrNone(At(f, Permissions)) && TableOrNone(At(f, Env))
              && ListOrNone(Below(f, Permissions, Allow)) && ListOrNone(Below(f, Permissions, AdditionalDirectories))
  {
    SettingsTidy(pins, writable);
    AllWorkIff(f, SettingsEdits(pins, writable));
    PinsPass(f, pins);
    SettingsKeysPass(f, writable);
    PassConcat(f, PinEdits(pins), SettingsKeys(writable));
  }

  lemma StateKeysPass(f: Fields)
    ensures Rooted(StateKeys()) && (AllPassable(f, StateKeys()) <==> TableOrNone(At(f, Projects)))
  {
    var es := StateKeys();
    PassTop(f, CompletedOnboarding, es[0].change);
    PassTop(f, Theme, es[1].change);
    PassTop(f, Projects, Table);
    assert AllPassable(f, es) ==> Passable(f, es[2].path, es[2].change);
  }

  lemma StateWorksIff(f: Fields, trusted: seq<string>)
    requires Distinct(trusted)
    ensures Rooted(StateEdits(trusted)) && (ApplyAll(f, StateEdits(trusted)).Ok? <==> ProjectsOpen(f, trusted))
  {
    var t := TrustEdits(trusted, TrustDialogAccepted, Flag(true));
    var u := TrustEdits(trusted, CompletedProjectOnboarding, Flag(true));
    StateTidy(trusted);
    AllWorkIff(f, StateEdits(trusted));
    StateKeysPass(f);
    if TableOrNone(At(f, Projects)) {
      TrustPasses(f, trusted, TrustDialogAccepted, Flag(true));
      TrustPasses(f, trusted, CompletedProjectOnboarding, Flag(true));
    }
    PassConcat(f, t, u);
    PassConcat(f, StateKeys(), t + u);
  }

  /** A file that can be read: missing, or a table of at most 256 KiB. */
  predicate Readable(doc: Option<Document>, size: Fields -> nat) {
    doc.Some? ==> doc.value.Parsed? && size(doc.value.fields) <= 262144
  }

  function FieldsOf(doc: Option<Document>): Fields { if doc.Some? && doc.value.Parsed? then doc.value.fields else map[] }

  lemma EditWorksIff(doc: Option<Document>, size: Fields -> nat, es: seq<Edit>)
    requires Rooted(es)
    ensures CanEdit(doc, size, es) <==> Readable(doc, size) && ApplyAll(FieldsOf(doc), es).Ok?
  {
  }

  /** A Codex home can be prepared exactly when its file can be read and has
      nothing but tables where the network switch and the trusted directories go. */
  lemma CodexPreparedIff(pins: Pins, given: seq<(string, Option<string>)>, writable: seq<string>, size: Fields -> nat, files: Files)
    ensures CanPrepare(Codex, pins, given, writable, size, files) <==>
              && PinsOk(pins) && AllAbsolute(given) && Readable(files.codex, size)
              && TableOrNone(At(FieldsOf(files.codex), WorkspaceWrite)) && ProjectsOpen(FieldsOf(files.codex), Forms(given))
  {
    FormsAreDistinct(given);
    CodexWorksIff(FieldsOf(files.codex), pins, Forms(given));
    EditWorksIff(files.codex, size, CodexEdits(pins, Forms(given)));
  }

  /** A Claude home exactly when both its files can be read and have tables, and
      lists, where the settings and the trusted directories go. */
  lemma ClaudePreparedIff(pins: Pins, given: seq<(string, Option<string>)>, writable: seq<string>, size: Fields -> nat, files: Files)
    ensures CanPrepare(Claude, pins, given, writable, size, files) <==>
              && PinsOk(pins) && AllAbsolute(given) && (forall i :: 0 <= i < |writable| ==> ['/'] <= writable[i])
              && Readable(files.settings, size) && Readable(files.state, size)
              && TableOrNone(At(FieldsOf(files.settings), Permissions)) && TableOrNone(At(FieldsOf(files.settings), Env))
              && ListOrNone(Below(FieldsOf(files.settings), Permissions, Allow))
              && ListOrNone(Below(FieldsOf(files.settings), Permissions, AdditionalDirectories))
              && ProjectsOpen(FieldsOf(files.state), Forms(given))
  {
    FormsAreDistinct(given);
    SettingsWorkIff(FieldsOf(files.settings), pins, writable);
    StateWorksIff(FieldsOf(files.state), Forms(given));
    EditWorksIff(files.settings, size, SettingsEdits(pins, writable));
    EditWorksIff(files.state, size, StateEdits(Forms(given)));
    assert forall i :: 0 <= i < |writable| ==> (Absolute(writable[i]) <==> ['/'] <= writable[i]);
  }
}
