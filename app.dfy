/**
 * The non-web core of `app/app_new.py`: the catalog loaded at start-up, the control-id
 * index, `_mark_control`, the SSH auto-check run, the item-detail merge, the CSV export rows
 * and `sanitize_filename`. The module globals (`db`, `checklist_items`,
 * `CONTROL_ID_TO_INDEX`) are parameters.
 */
module App {
  import opened Wrappers
  import opened Text
  import opened Catalog
  import opened ConfigTree
  import S = Status
  import Store
  import Reports
  import Parsers
  import Remote
  import AutoChecks

  // ----- start-up -----

  /** `checklist_items` at start-up: whatever loads, or `[]` when loading raises. */
  function StartupItems(ckl: Parsers.CklFile, cklPath: string, json: Parsers.JsonFile, jsonPath: string): seq<Item> {
    match Parsers.LoadChecklist(ckl, cklPath, json, jsonPath)
    case Ok(items) => items
    case Err(_) => []
  }

  /** Start-up never fails: a CKL that loads is used as is, and when neither file loads the catalog is empty. */
  lemma StartupItemsCases(ckl: Parsers.CklFile, cklPath: string, json: Parsers.JsonFile, jsonPath: string)
    ensures Parsers.LoadCkl(ckl, cklPath).Ok? ==> StartupItems(ckl, cklPath, json, jsonPath) == Parsers.LoadCkl(ckl, cklPath).value
    ensures Parsers.LoadCkl(ckl, cklPath).Err? && json.JsonList? ==> StartupItems(ckl, cklPath, json, jsonPath) == json.items
    ensures Parsers.LoadCkl(ckl, cklPath).Err? && !json.JsonList? ==> StartupItems(ckl, cklPath, json, jsonPath) == []
  {
    Parsers.ChecklistFallback(ckl, cklPath, json, jsonPath);
  }

  // ----- CONTROL_ID_TO_INDEX -----

  /** The key an item contributes: its control id, stripped, when `item.get("control_id")` is truthy. */
  function IndexKey(item: Item): Option<string> {
    if item.controlId.Present? && item.controlId.value != "" then Some(Strip(item.controlId.value)) else None
  }

  /** The index after the first `n` items, each contributing `key(item)` when there is one: later items win. */
  function IndexBy<T>(items: seq<T>, key: T -> Option<string>, n: nat): map<string, nat>
    requires n <= |items|
  {
    if n == 0 then map[]
    else
      var m := IndexBy(items, key, n - 1);
      match key(items[n - 1])
      case Some(k) => m[k := n - 1]
      case None => m
  }

  /** `CONTROL_ID_TO_INDEX` for a catalog. */
  function ControlIndex(items: seq<Item>): map<string, nat> {
    IndexBy(items, IndexKey, |items|)
  }

  /** The loop that builds `CONTROL_ID_TO_INDEX`. */
  method BuildControlIndex(items: seq<Item>) returns (index: map<string, nat>)
    ensures index == ControlIndex(items)
  {
    index := map[];
    var idx := 0;
    while idx < |items|
      invariant 0 <= idx <= |items|
      invariant index == IndexBy(items, IndexKey, idx)
    {
      var cid := IndexKey(items[idx]);
      if cid.Some? {
        index := index[cid.value := idx];
      }
      idx := idx + 1;
    }
  }

  /** Every key comes from an item, and every entry points at an earlier item carrying that key. */
  lemma {:induction false} IndexBySound<T>(items: seq<T>, key: T -> Option<string>, n: nat)
    requires n <= |items|
    ensures forall k :: k in IndexBy(items, key, n) ==>
      IndexBy(items, key, n)[k] < n && key(items[IndexBy(items, key, n)[k]]) == Some(k)
  {
    if n > 0 {
      IndexBySound(items, key, n - 1);
    }
  }

  /** Every item with a key has that key in the index. */
  lemma {:induction false} IndexByComplete<T>(items: seq<T>, key: T -> Option<string>, n: nat, j: nat)
    requires j < n <= |items|
    requires key(items[j]).Some?
    ensures key(items[j]).value in IndexBy(items, key, n)
  {
    if j < n - 1 {
      IndexByComplete(items, key, n - 1, j);
    }
  }

  /** A key maps to the last item carrying it. */
  lemma {:induction false} IndexByLastWins<T>(items: seq<T>, key: T -> Option<string>, n: nat, j: nat)
    requires j < n <= |items|
    requires key(items[j]).Some?
    requires forall l :: j < l < n ==> key(items[l]) != key(items[j])
    ensures key(items[j]).value in IndexBy(items, key, n)
    ensures IndexBy(items, key, n)[key(items[j]).value] == j
  {
    if j < n - 1 {
      IndexByLastWins(items, key, n - 1, j);
    }
  }

  /**
   * `CONTROL_ID_TO_INDEX` maps exactly the stripped truthy control ids, each to the position
   * of the last item carrying it.
   */
  lemma ControlIndexMeaning(items: seq<Item>, j: nat)
    requires j < |items|
    ensures forall k :: k in ControlIndex(items) ==>
      ControlIndex(items)[k] < |items| && IndexKey(items[ControlIndex(items)[k]]) == Some(k)
    ensures IndexKey(items[j]).Some? ==> IndexKey(items[j]).value in ControlIndex(items)
    ensures IndexKey(items[j]).Some? && (forall l :: j < l < |items| ==> IndexKey(items[l]) != IndexKey(items[j])) ==>
      ControlIndex(items)[IndexKey(items[j]).value] == j
  {
    IndexBySound(items, IndexKey, |items|);
    if IndexKey(items[j]).Some? {
      IndexByComplete(items, IndexKey, |items|, j);
      if forall l :: j < l < |items| ==> IndexKey(items[l]) != IndexKey(items[j]) {
        IndexByLastWins(items, IndexKey, |items|, j);
      }
    }
  }

  /** The truthiness test comes before the strip: a blank control id is indexed under "". */
  lemma BlankIdIndexedUnderEmptyKey(items: seq<Item>, j: nat)
    requires j < |items| && items[j].controlId == Present(" ")
    ensures "" in ControlIndex(items)
  {
    assert Strip(" ") == "";
    IndexByComplete(items, IndexKey, |items|, j);
  }

  // ----- _mark_control -----

  /** One `_mark_control(device_id, control_id, status, note)` call. */
  datatype Mark = Mark(controlId: string, status: string, note: string)

  /** The review table after one mark: unknown control ids write nothing. */
  function ApplyMark(reviews: map<Store.ReviewKey, Store.Review>, index: map<string, nat>, d: int, m: Mark): map<Store.ReviewKey, Store.Review> {
    if m.controlId in index then Store.Upsert(reviews, d, index[m.controlId], Store.Review(m.status, Some(m.note)))
    else reviews
  }

  /** The review table after a sequence of marks, in order. */
  function ApplyMarks(reviews: map<Store.ReviewKey, Store.Review>, index: map<string, nat>, d: int, marks: seq<Mark>): map<Store.ReviewKey, Store.Review> {
    if marks == [] then reviews
    else ApplyMark(ApplyMarks(reviews, index, d, marks[..|marks| - 1]), index, d, marks[|marks| - 1])
  }

  /** `_mark_control`. */
  method MarkControl(db: Store.Database, index: map<string, nat>, d: int, controlId: string, status: string, note: string)
    requires db.Valid()
    modifies db
    ensures db.Valid()
    ensures db.reviews == ApplyMark(old(db.reviews), index, d, Mark(controlId, status, note))
    ensures db.devices == old(db.devices) && db.ids == old(db.ids)
  {
    if controlId !in index {
      return;
    }
    db.SaveReview(d, index[controlId], status, Some(note));
  }

  /** An unknown control id writes nothing; a known one upserts exactly `(device, index[id])`. */
  lemma MarkEffect(reviews: map<Store.ReviewKey, Store.Review>, index: map<string, nat>, d: int, m: Mark)
    ensures m.controlId !in index ==> ApplyMark(reviews, index, d, m) == reviews
    ensures m.controlId in index ==>
      var k := (d, index[m.controlId] as int);
      && k in ApplyMark(reviews, index, d, m)
      && ApplyMark(reviews, index, d, m)[k] == Store.Review(m.status, Some(m.note))
      && (forall k' :: k' != k ==> (k' in ApplyMark(reviews, index, d, m) <==> k' in reviews))
      && (forall k' :: k' != k && k' in reviews ==> ApplyMark(reviews, index, d, m)[k'] == reviews[k'])
  {
  }

  lemma ApplyMarksAppend(reviews: map<Store.ReviewKey, Store.Review>, index: map<string, nat>, d: int, marks: seq<Mark>, m: Mark)
    ensures ApplyMarks(reviews, index, d, marks + [m]) == ApplyMark(ApplyMarks(reviews, index, d, marks), index, d, m)
  {
    assert (marks + [m])[..|marks|] == marks;
  }

  /** Marks for one device never touch another device's reviews. */
  lemma {:induction false} MarksStayOnDevice(reviews: map<Store.ReviewKey, Store.Review>, index: map<string, nat>, d: int, marks: seq<Mark>, other: int)
    requires other != d
    ensures Store.ReviewsOf(ApplyMarks(reviews, index, d, marks), other) == Store.ReviewsOf(reviews, other)
  {
    if marks != [] {
      var prefix := ApplyMarks(reviews, index, d, marks[..|marks| - 1]);
      MarksStayOnDevice(reviews, index, d, marks[..|marks| - 1], other);
      var m := marks[|marks| - 1];
      if m.controlId in index {
        Store.SaveIsPerDevice(prefix, d, index[m.controlId], Store.Review(m.status, Some(m.note)), other);
      }
    }
  }

  // ----- run_auto_checks_ssh -----

  const ConfigPath := "/conf/config.xml"
  const EmptyConfigNote := "Auto-check failed: empty config.xml"

  /** The note of the outer handler: `f"Auto-check SSH error: {type(e).__name__} - {e}"`. */
  function SshErrorNote(e: Error): string {
    "Auto-check SSH error: " + e.kind + " - " + e.message
  }

  /** What one registry entry writes: its result, or Not Reviewed with the error note when it raised. */
  function CheckMark(controlId: string, res: Result<AutoChecks.CheckResult>): Mark {
    match res
    case Ok(r) => Mark(controlId, S.ToString(r.status), r.note)
    case Err(e) => Mark(controlId, "Not Reviewed", AutoChecks.ErrorNote(e))
  }

  /** Running one registry entry's check against a parsed configuration. */
  function Outcomes(env: AutoChecks.Env): AutoChecks.CheckKind -> Result<AutoChecks.CheckResult> {
    kind => AutoChecks.RunCheck(kind, env)
  }

  /** The marks of the first `n` entries of a registry, in registry order. */
  function MarksOf<K>(entries: seq<(string, K)>, run: K -> Result<AutoChecks.CheckResult>, n: nat): (marks: seq<Mark>)
    requires n <= |entries|
    ensures |marks| == n
  {
    if n == 0 then []
    else MarksOf(entries, run, n - 1) + [CheckMark(entries[n - 1].0, run(entries[n - 1].1))]
  }

  /**
   * Every `_mark_control` call of `run_auto_checks_ssh`, given the device row, the outcome of
   * opening the SSH session and the XML parser.
   */
  function AutoCheckMarks(device: Store.Device, session: Result<Remote.Remote>, parse: string -> Result<Node>,
                          serialize: Node -> string, trapSink: string -> bool): seq<Mark>
  {
    var mgmtIp := Strip(OrEmpty(device.mgmtIp));
    var sshUser := Strip(OrEmpty(device.sshUser));
    if mgmtIp == "" || sshUser == "" then []
    else match session
      case Err(e) => [Mark("1.4", "Not Reviewed", SshErrorNote(e))]
      case Ok(ssh) =>
        match Remote.ReadFile(ssh, ConfigPath)
        case Err(e) => [Mark("1.4", "Not Reviewed", SshErrorNote(e))]
        case Ok(xml) =>
          if !Truthy(xml) then [Mark("1.4", "Not Reviewed", EmptyConfigNote)]
          else match parse(xml.value)
            case Err(e) => [Mark("1.4", "Not Reviewed", SshErrorNote(e))]
            case Ok(root) => MarksOf(AutoChecks.Registry, Outcomes(AutoChecks.Env(root, Some(ssh), serialize, trapSink)), |AutoChecks.Registry|)
  }

  /** `run_auto_checks_ssh(device_id, device)`. */
  method RunAutoChecksSsh(db: Store.Database, index: map<string, nat>, deviceId: int, device: Store.Device,
                          session: Result<Remote.Remote>, parse: string -> Result<Node>,
                          serialize: Node -> string, trapSink: string -> bool)
    requires db.Valid()
    modifies db
    ensures db.Valid()
    ensures db.reviews == ApplyMarks(old(db.reviews), index, deviceId, AutoCheckMarks(device, session, parse, serialize, trapSink))
    ensures db.devices == old(db.devices) && db.ids == old(db.ids)
  {
    var mgmtIp := Strip(OrEmpty(device.mgmtIp));
    var sshUser := Strip(OrEmpty(device.sshUser));
    if mgmtIp == "" || sshUser == "" {
      return;
    }
    if session.Err? {
      MarkControl(db, index, deviceId, "1.4", "Not Reviewed", SshErrorNote(session.error));
      return;
    }
    var ssh := session.value;
    var xml := Remote.ReadFile(ssh, ConfigPath);
    if xml.Err? {
      MarkControl(db, index, deviceId, "1.4", "Not Reviewed", SshErrorNote(xml.error));
      return;
    }
    if !Truthy(xml.value) {
      MarkControl(db, index, deviceId, "1.4", "Not Reviewed", EmptyConfigNote);
      return;
    }
    var root := parse(xml.value.value);
    if root.Err? {
      MarkControl(db, index, deviceId, "1.4", "Not Reviewed", SshErrorNote(root.error));
      return;
    }
    var env := AutoChecks.Env(root.value, Some(ssh), serialize, trapSink);
    RunRegistry(db, index, deviceId, env, AutoChecks.Registry);
  }

  /** The `CHECK_REGISTRY` loop: each check runs in order, and one that raises is marked with its error. */
  method RunRegistry(db: Store.Database, index: map<string, nat>, deviceId: int, env: AutoChecks.Env,
                     registry: seq<(string, AutoChecks.CheckKind)>)
    requires db.Valid()
    modifies db
    ensures db.Valid()
    ensures db.reviews == ApplyMarks(old(db.reviews), index, deviceId, MarksOf(registry, Outcomes(env), |registry|))
    ensures db.devices == old(db.devices) && db.ids == old(db.ids)
  {
    var i := 0;
    while i < |registry|
      invariant 0 <= i <= |registry|
      invariant db.Valid()
      invariant db.reviews == ApplyMarks(old(db.reviews), index, deviceId, MarksOf(registry, Outcomes(env), i))
      invariant db.devices == old(db.devices) && db.ids == old(db.ids)
    {
      var res := AutoChecks.Run(registry[i].1, env);
      assert res == Outcomes(env)(registry[i].1);
      ApplyMarksOfStep(old(db.reviews), index, deviceId, registry, Outcomes(env), i);
      MarkOutcome(db, index, deviceId, registry[i].0, res);
      i := i + 1;
    }
  }

  /** Applying the marks of one more entry is applying that entry's mark last. */
  lemma ApplyMarksOfStep<K>(reviews: map<Store.ReviewKey, Store.Review>, index: map<string, nat>, d: int,
                            entries: seq<(string, K)>, run: K -> Result<AutoChecks.CheckResult>, n: nat)
    requires n < |entries|
    ensures ApplyMarks(reviews, index, d, MarksOf(entries, run, n + 1)) ==
      ApplyMark(ApplyMarks(reviews, index, d, MarksOf(entries, run, n)), index, d, CheckMark(entries[n].0, run(entries[n].1)))
  {
    ApplyMarksAppend(reviews, index, d, MarksOf(entries, run, n), CheckMark(entries[n].0, run(entries[n].1)));
  }

  /** One entry's `_mark_control` call: the check's verdict, or Not Reviewed with the error it raised. */
  method MarkOutcome(db: Store.Database, index: map<string, nat>, deviceId: int, controlId: string,
                     res: Result<AutoChecks.CheckResult>)
    requires db.Valid()
    modifies db
    ensures db.Valid()
    ensures db.reviews == ApplyMark(old(db.reviews), index, deviceId, CheckMark(controlId, res))
    ensures db.devices == old(db.devices) && db.ids == old(db.ids)
  {
    match res {
      case Ok(r) =>
        MarkControl(db, index, deviceId, controlId, S.ToString(r.status), r.note);
      case Err(e) =>
        MarkControl(db, index, deviceId, controlId, "Not Reviewed", AutoChecks.ErrorNote(e));
    }
  }

  /** Mark `i` is entry `i`'s own outcome, so a raising check spoils only its own control. */
  lemma {:induction false} MarksOfAt<K>(entries: seq<(string, K)>, run: K -> Result<AutoChecks.CheckResult>, n: nat, i: nat)
    requires i < n <= |entries|
    ensures MarksOf(entries, run, n)[i] == CheckMark(entries[i].0, run(entries[i].1))
    ensures MarksOf(entries, run, n)[i].controlId == entries[i].0
  {
    if i < n - 1 {
      MarksOfAt(entries, run, n - 1, i);
    }
  }

  /** A check that raises is marked Not Reviewed with `Auto-check error: <type> - <msg>`. */
  lemma RaisingCheckMark(env: AutoChecks.Env, i: nat)
    requires i < |AutoChecks.Registry|
    requires AutoChecks.RunCheck(AutoChecks.Registry[i].1, env).Err?
    ensures MarksOf(AutoChecks.Registry, Outcomes(env), |AutoChecks.Registry|)[i] ==
      Mark(AutoChecks.Registry[i].0, "Not Reviewed", AutoChecks.ErrorNote(AutoChecks.RunCheck(AutoChecks.Registry[i].1, env).error))
  {
    MarksOfAt(AutoChecks.Registry, Outcomes(env), |AutoChecks.Registry|, i);
  }

  /** Without a management address or SSH user (after stripping) nothing is written. */
  lemma MissingTargetWritesNothing(reviews: map<Store.ReviewKey, Store.Review>, index: map<string, nat>, d: int,
                                   device: Store.Device, session: Result<Remote.Remote>, parse: string -> Result<Node>,
                                   serialize: Node -> string, trapSink: string -> bool)
    requires Strip(OrEmpty(device.mgmtIp)) == "" || Strip(OrEmpty(device.sshUser)) == ""
    ensures AutoCheckMarks(device, session, parse, serialize, trapSink) == []
    ensures ApplyMarks(reviews, index, d, AutoCheckMarks(device, session, parse, serialize, trapSink)) == reviews
  {
  }

  /** Every entry of a registry run carries its entry's control id, in order. */
  lemma MarksOfIds<K>(entries: seq<(string, K)>, run: K -> Result<AutoChecks.CheckResult>)
    ensures forall i :: 0 <= i < |entries| ==> MarksOf(entries, run, |entries|)[i].controlId == entries[i].0
  {
    forall i | 0 <= i < |entries|
      ensures MarksOf(entries, run, |entries|)[i].controlId == entries[i].0
    {
      MarksOfAt(entries, run, |entries|, i);
    }
  }

  /**
   * Once the target is known: a failed session, read or parse, or an empty config.xml, writes
   * control 1.4 only, as Not Reviewed; otherwise every registry entry is marked once, in order.
   */
  lemma AutoCheckMarksShape(device: Store.Device, session: Result<Remote.Remote>, parse: string -> Result<Node>,
                            serialize: Node -> string, trapSink: string -> bool)
    requires Strip(OrEmpty(device.mgmtIp)) != "" && Strip(OrEmpty(device.sshUser)) != ""
    ensures var marks := AutoCheckMarks(device, session, parse, serialize, trapSink);
      || (|marks| == 1 && marks[0].controlId == "1.4" && marks[0].status == "Not Reviewed")
      || (|marks| == |AutoChecks.Registry| &&
          forall i :: 0 <= i < |marks| ==> marks[i].controlId == AutoChecks.Registry[i].0)
    ensures session.Ok? && Remote.ReadFile(session.value, ConfigPath) == Ok(Some("")) ==>
      AutoCheckMarks(device, session, parse, serialize, trapSink) == [Mark("1.4", "Not Reviewed", EmptyConfigNote)]
  {
    var marks := AutoCheckMarks(device, session, parse, serialize, trapSink);
    if session.Ok? {
      var ssh := session.value;
      var xml := Remote.ReadFile(ssh, ConfigPath);
      if xml.Ok? && Truthy(xml.value) && parse(xml.value.value).Ok? {
        var env := AutoChecks.Env(parse(xml.value.value).value, Some(ssh), serialize, trapSink);
        assert marks == MarksOf(AutoChecks.Registry, Outcomes(env), |AutoChecks.Registry|);
        MarksOfIds(AutoChecks.Registry, Outcomes(env));
      }
    }
  }

  // ----- device_item_detail -----

  /** An `Option` stored back into the dictionary: None becomes `null`. */
  function ToField<T>(o: Option<T>): Field<T> {
    match o
    case Some(v) => Present(v)
    case None => Null
  }

  /**
   * The item `device_item_detail` shows, or None (404) for a device id with no row or an
   * index outside the catalog; `devices` and `reviews` are the two tables it reads.
   */
  function ItemDetail(devices: map<int, Store.Device>, reviews: map<Store.ReviewKey, Store.Review>,
                      deviceId: int, items: seq<Item>, idx: int): Option<Item> {
    if deviceId !in devices then None
    else if idx < 0 || idx >= |items| then None
    else
      var deviceReviews := Store.ReviewsOf(reviews, deviceId);
      var base := items[idx];
      var status := if idx in deviceReviews then Some(deviceReviews[idx].status) else Get(base.status, "Not Reviewed");
      var comment := if idx in deviceReviews && Truthy(deviceReviews[idx].note) then deviceReviews[idx].note.value else "";
      Some(base.(status := ToField(status), comment := Present(comment), rowIndex := ToField(Get(base.rowIndex, idx))))
  }

  /**
   * The detail page exists exactly for a stored device and an index inside the catalog,
   * shows the same status and comment as that device's checklist view, and defaults a
   * missing `row_index` to the index.
   */
  lemma ItemDetailAgreesWithView(devices: map<int, Store.Device>, reviews: map<Store.ReviewKey, Store.Review>,
                                 deviceId: int, items: seq<Item>, idx: int)
    ensures ItemDetail(devices, reviews, deviceId, items, idx).Some? <==> deviceId in devices && 0 <= idx < |items|
    ensures deviceId in devices && 0 <= idx < |items| ==>
      var d := ItemDetail(devices, reviews, deviceId, items, idx).value;
      var v := Reports.ViewItem(items[idx], idx, Store.ReviewsOf(reviews, deviceId)).item;
      && d.status == v.status && d.comment == v.comment
      && d.(rowIndex := items[idx].rowIndex) == v
      && (items[idx].rowIndex.Absent? ==> d.rowIndex == Present(idx))
      && (!items[idx].rowIndex.Absent? ==> d.rowIndex == items[idx].rowIndex)
  {
  }

  // ----- device_export_csv -----

  const CsvHeader: seq<string> := ["Device Name", "Hostname", "Control ID", "Section", "Title", "Status", "Comment", "Rationale", "Fix Text"]

  /** `item.get(key, "")` as the csv writer renders it: a `null` becomes "". */
  function Cell(f: Field<string>): string {
    if f.Present? then f.value else ""
  }

  /** One exported row: device name, hostname (or ""), then seven item fields. */
  function CsvRow(device: Store.Device, item: Item): (row: seq<string>)
    ensures |row| == |CsvHeader|
  {
    [device.name, OrEmpty(device.hostname), Cell(item.controlId), Cell(item.section), Cell(item.title),
     Cell(item.status), Cell(item.comment), Cell(item.rationale), Cell(item.fixText)]
  }

  /** The rows `device_export_csv` writes, header first. */
  method ExportCsvRows(device: Store.Device, view: seq<Reports.DeviceItem>) returns (rows: seq<seq<string>>)
    ensures |rows| == |view| + 1 && rows[0] == CsvHeader
    ensures forall i :: 0 <= i < |view| ==> rows[i + 1] == CsvRow(device, view[i].item)
  {
    rows := [CsvHeader];
    var i := 0;
    while i < |view|
      invariant 0 <= i <= |view|
      invariant |rows| == i + 1 && rows[0] == CsvHeader
      invariant forall j :: 0 <= j < i ==> rows[j + 1] == CsvRow(device, view[j].item)
    {
      rows := rows + [CsvRow(device, view[i].item)];
      i := i + 1;
    }
  }

  /**
   * Exported from the checklist view, row `i + 1` has nine cells, carries catalog item `i`'s
   * control id, and its Status and Comment columns are the merged status and the note.
   */
  lemma CsvRowOfView(device: Store.Device, items: seq<Item>, reviews: Reports.Reviews, i: nat)
    requires i < |items|
    ensures var row := CsvRow(device, Reports.ViewItem(items[i], i, reviews).item);
      && |row| == 9 && CsvHeader[2] == "Control ID" && CsvHeader[5] == "Status" && CsvHeader[6] == "Comment"
      && row[2] == Cell(items[i].controlId)
      && row[5] == (if i in reviews then reviews[i].status else if items[i].status.Absent? then "Not Reviewed" else Cell(items[i].status))
      && row[6] == (if i in reviews && Truthy(reviews[i].note) then reviews[i].note.value else "")
  {
  }

  // ----- sanitize_filename -----

  /** The characters `[\w\s-]` keeps. */
  predicate SafeChar(c: char) {
    IsWordChar(c) || IsSpace(c) || c == '-'
  }

  /** `re.sub(r'[^\w\s-]', '', s)`. */
  function DropUnsafe(s: string): string {
    if s == [] then []
    else (if SafeChar(s[0]) then [s[0]] else []) + DropUnsafe(s[1..])
  }

  lemma {:induction false} DropUnsafeKeepsSafe(s: string)
    ensures forall i :: 0 <= i < |DropUnsafe(s)| ==> SafeChar(DropUnsafe(s)[i])
  {
    if s != [] {
      DropUnsafeKeepsSafe(s[1..]);
    }
  }

  /** `s.replace(' ', '_')`. */
  function SpacesToUnderscores(s: string): (r: string)
    ensures |r| == |s|
    ensures forall i :: 0 <= i < |s| ==> r[i] == (if s[i] == ' ' then '_' else s[i])
  {
    if s == [] then [] else [if s[0] == ' ' then '_' else s[0]] + SpacesToUnderscores(s[1..])
  }

  /** `re.sub(r'_+', '_', s)`: each run of underscores becomes one. */
  function CollapseUnderscores(s: string): (r: string)
    ensures |r| <= |s|
    ensures forall i :: 0 <= i < |r| ==> r[i] in s
  {
    if |s| <= 1 then s
    else if s[0] == '_' && s[1] == '_' then CollapseUnderscores(s[1..])
    else [s[0]] + CollapseUnderscores(s[1..])
  }

  function SanitizeFilename(name: string): string {
    CollapseUnderscores(SpacesToUnderscores(DropUnsafe(name)))
  }

  predicate NoDoubleUnderscore(s: string) {
    forall i :: 0 <= i < |s| - 1 ==> !(s[i] == '_' && s[i + 1] == '_')
  }

  lemma {:induction false} CollapseKeepsFirst(s: string)
    requires |s| > 0
    ensures |CollapseUnderscores(s)| > 0 && CollapseUnderscores(s)[0] == s[0]
  {
    if |s| > 1 && s[0] == '_' && s[1] == '_' {
      CollapseKeepsFirst(s[1..]);
    }
  }

  lemma {:induction false} CollapseLeavesNoDouble(s: string)
    ensures NoDoubleUnderscore(CollapseUnderscores(s))
  {
    if |s| > 1 {
      CollapseLeavesNoDouble(s[1..]);
      if !(s[0] == '_' && s[1] == '_') {
        CollapseKeepsFirst(s[1..]);
        var r := CollapseUnderscores(s);
        var rest := CollapseUnderscores(s[1..]);
        assert r == [s[0]] + rest;
        forall i | 0 <= i < |r| - 1
          ensures !(r[i] == '_' && r[i + 1] == '_')
        {
          if i > 0 {
            assert r[i] == rest[i - 1] && r[i + 1] == rest[i];
          }
        }
      }
    }
  }

  lemma {:induction false} CollapseIdentity(s: string)
    requires NoDoubleUnderscore(s)
    ensures CollapseUnderscores(s) == s
  {
    if |s| > 1 {
      assert NoDoubleUnderscore(s[1..]) by {
        forall i | 0 <= i < |s[1..]| - 1
          ensures !(s[1..][i] == '_' && s[1..][i + 1] == '_')
        {
          assert s[1..][i] == s[i + 1] && s[1..][i + 1] == s[i + 2];
        }
      }
      CollapseIdentity(s[1..]);
      assert !(s[0] == '_' && s[1] == '_');
      assert s == [s[0]] + s[1..];
    }
  }

  /** A double underscore anywhere collapses as a single one would. */
  lemma {:induction false} CollapseDoubleUnderscore(a: string, b: string)
    ensures CollapseUnderscores(a + "__" + b) == CollapseUnderscores(a + "_" + b)
  {
    if a == [] {
      assert a + "__" + b == "__" + b;
      assert a + "_" + b == "_" + b;
      assert ("__" + b)[1..] == "_" + b;
    } else {
      var s, t := a + "__" + b, a + "_" + b;
      assert s[0] == t[0] == a[0];
      assert s[1] == t[1];
      assert s[1..] == a[1..] + "__" + b;
      assert t[1..] == a[1..] + "_" + b;
      CollapseDoubleUnderscore(a[1..], b);
    }
  }

  /** `s` without its underscores. */
  function NonUnderscores(s: string): string {
    if s == [] then [] else (if s[0] == '_' then [] else [s[0]]) + NonUnderscores(s[1..])
  }

  /** Collapsing keeps every other character, in order: only underscores are removed. */
  lemma {:induction false} CollapseKeepsOthers(s: string)
    ensures NonUnderscores(CollapseUnderscores(s)) == NonUnderscores(s)
  {
    if |s| > 1 {
      CollapseKeepsOthers(s[1..]);
      if !(s[0] == '_' && s[1] == '_') {
        var rest := CollapseUnderscores(s[1..]);
        assert ([s[0]] + rest)[0] == s[0] && ([s[0]] + rest)[1..] == rest;
      }
    }
  }

  lemma {:induction false} DropUnsafeIdentity(s: string)
    requires forall i :: 0 <= i < |s| ==> SafeChar(s[i])
    ensures DropUnsafe(s) == s
  {
    if s != [] {
      DropUnsafeIdentity(s[1..]);
      assert s == [s[0]] + s[1..];
    }
  }

  /**
   * The sanitised name holds only word characters, whitespace and `-`, never a space, and no
   * two underscores in a row.
   */
  lemma SanitizedNameIsSafe(name: string)
    ensures var r := SanitizeFilename(name);
      && (forall i :: 0 <= i < |r| ==> SafeChar(r[i]) && r[i] != ' ')
      && NoDoubleUnderscore(r)
  {
    var a := DropUnsafe(name);
    DropUnsafeKeepsSafe(name);
    var b := SpacesToUnderscores(a);
    assert forall i :: 0 <= i < |b| ==> SafeChar(b[i]) && b[i] != ' ';
    CollapseLeavesNoDouble(b);
  }

  /** Sanitising twice is sanitising once. */
  lemma SanitizeIdempotent(name: string)
    ensures SanitizeFilename(SanitizeFilename(name)) == SanitizeFilename(name)
  {
    var r := SanitizeFilename(name);
    SanitizedNameIsSafe(name);
    DropUnsafeIdentity(r);
    assert SpacesToUnderscores(r) == r;
    CollapseIdentity(r);
  }

  lemma {:induction false} DropUnsafeAppend(a: string, b: string)
    ensures DropUnsafe(a + b) == DropUnsafe(a) + DropUnsafe(b)
  {
    if a == [] {
      assert a + b == b;
    } else {
      var head: string := if SafeChar(a[0]) then [a[0]] else [];
      assert (a + b)[0] == a[0] && (a + b)[1..] == a[1..] + b;
      assert DropUnsafe(a + b) == head + DropUnsafe(a[1..] + b);
      DropUnsafeAppend(a[1..], b);
      assert head + (DropUnsafe(a[1..]) + DropUnsafe(b)) == (head + DropUnsafe(a[1..])) + DropUnsafe(b);
    }
  }

  /** "Edge FW #1" becomes "Edge_FW_1". */
  lemma SanitizeExample()
    ensures SanitizeFilename("Edge FW #1") == "Edge_FW_1"
  {
    DropExample();
    SpacesExample();
    CollapseExample();
  }

  lemma CollapseExample()
    ensures CollapseUnderscores("Edge_FW_1") == "Edge_FW_1"
  {
    var s := "Edge_FW_1";
    assert NoDoubleUnderscore(s) by {
      forall i | 0 <= i < |s| - 1
        ensures !(s[i] == '_' && s[i + 1] == '_')
      {
        assert s[i] == '_' ==> i == 4 || i == 7;
      }
    }
    CollapseIdentity(s);
  }

  /** Dropping from a string with one unsafe character removes exactly that character. */
  lemma DropOneUnsafe(a: string, c: char, b: string)
    requires forall i :: 0 <= i < |a| ==> SafeChar(a[i])
    requires forall i :: 0 <= i < |b| ==> SafeChar(b[i])
    requires !SafeChar(c)
    ensures DropUnsafe(a + [c] + b) == a + b
  {
    calc {
      DropUnsafe(a + [c] + b);
      { DropUnsafeAppend(a + [c], b); }
      DropUnsafe(a + [c]) + DropUnsafe(b);
      { DropUnsafeAppend(a, [c]); }
      DropUnsafe(a) + DropUnsafe([c]) + DropUnsafe(b);
      { DropUnsafeIdentity(a); DropUnsafeIdentity(b); assert [c][1..] == []; }
      a + [] + b;
      { assert a + [] == a; }
      a + b;
    }
  }

  lemma DropExample()
    ensures DropUnsafe("Edge FW #1") == "Edge FW 1"
  {
    assert "Edge FW #1" == "Edge FW " + ['#'] + "1";
    DropOneUnsafe("Edge FW ", '#', "1");
    assert "Edge FW " + "1" == "Edge FW 1";
  }

  lemma SpacesExample()
    ensures SpacesToUnderscores("Edge FW 1") == "Edge_FW_1"
  {
  }

  /** `pfsense_benchmark_{safe_name}_{timestamp}.csv`, the clock reading given. */
  function CsvFilename(deviceName: string, timestamp: string): string {
    "pfsense_benchmark_" + SanitizeFilename(deviceName) + "_" + timestamp + ".csv"
  }

  /** Whatever the device name, the export filename has a space only if the timestamp has one. */
  lemma CsvFilenameHasNoSpaceFromName(deviceName: string, timestamp: string)
    ensures ' ' in CsvFilename(deviceName, timestamp) <==> ' ' in timestamp
  {
    SanitizedNameIsSafe(deviceName);
    var name := SanitizeFilename(deviceName);
    var f := CsvFilename(deviceName, timestamp);
    var k := |"pfsense_benchmark_"| + |name| + 1;
    assert f[k..k + |timestamp|] == timestamp;
    if ' ' in f {
      var i :| 0 <= i < |f| && f[i] == ' ';
      if k <= i < k + |timestamp| {
        assert timestamp[i - k] == ' ';
      }
    }
  }
}
