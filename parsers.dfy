/**
 * `app/parsers.py`: turning a DISA STIG Viewer checklist (`.ckl`) into catalog items, the
 * legacy JSON list loader, and the CKL-then-JSON fallback. Files are given already read:
 * missing, unparsable, or parsed into an element tree / JSON value.
 */
module Parsers {
  import opened Wrappers
  import opened Text
  import opened ConfigTree
  import opened Catalog
  import S = Status

  /** The CKL file as `load_ckl_items` finds it. */
  datatype CklFile = CklMissing | CklMalformed(parseError: string) | CklParsed(root: Node)

  /** The JSON file as `load_json_items` finds it. */
  datatype JsonFile = JsonMissing | JsonMalformed(decodeError: string) | JsonList(items: seq<Item>) | JsonNotAList

  const IstigPath: Path := [Desc("STIGS"), Child("iSTIG")]

  /** `(sd.findtext(tag) or "").strip()`. */
  function ChildText(n: Node, tag: string): string {
    Strip(OrEmpty(FindText(n, [Child(tag)])))
  }

  /** The (name, value) pair of one STIG_DATA element. */
  function Attr(sd: Node): (string, string) {
    (ChildText(sd, "VULN_ATTRIBUTE"), ChildText(sd, "ATTRIBUTE_DATA"))
  }

  /** The STIG_DATA children of a VULN, as (name, value) pairs. */
  function Attrs(vuln: Node): (r: seq<(string, string)>)
    ensures |r| == |FindAll(vuln, [Child("STIG_DATA")])|
  {
    var sds := FindAll(vuln, [Child("STIG_DATA")]);
    seq(|sds|, i requires 0 <= i < |sds| => Attr(sds[i]))
  }

  /** `stig_data` after the first `n` pairs: empty names skipped, later pairs win. */
  function StigData(attrs: seq<(string, string)>, n: nat): map<string, string>
    requires n <= |attrs|
  {
    if n == 0 then map[]
    else
      var m := StigData(attrs, n - 1);
      if attrs[n - 1].0 != "" then m[attrs[n - 1].0 := attrs[n - 1].1] else m
  }

  /** The `stig_data` loop of `load_ckl_items`, over a VULN's (name, value) pairs. */
  method CollectStigData(attrs: seq<(string, string)>) returns (data: map<string, string>)
    ensures data == StigData(attrs, |attrs|)
  {
    data := map[];
    var i := 0;
    while i < |attrs|
      invariant 0 <= i <= |attrs|
      invariant data == StigData(attrs, i)
    {
      var (key, val) := attrs[i];
      if key != "" {
        data := data[key := val];
      }
      i := i + 1;
    }
  }

  /** A name is a key exactly when it is non-empty and some pair carries it. */
  lemma {:induction false} StigDataKeys(attrs: seq<(string, string)>, n: nat, key: string)
    requires n <= |attrs|
    ensures key in StigData(attrs, n) <==> key != "" && exists j :: 0 <= j < n && attrs[j].0 == key
  {
    if n > 0 {
      StigDataKeys(attrs, n - 1, key);
    }
  }

  /** The value of a name is the value of its last pair. */
  lemma {:induction false} StigDataLastWins(attrs: seq<(string, string)>, n: nat, j: nat)
    requires j < n <= |attrs|
    requires attrs[j].0 != ""
    requires forall l :: j < l < n ==> attrs[l].0 != attrs[j].0
    ensures attrs[j].0 in StigData(attrs, n)
    ensures StigData(attrs, n)[attrs[j].0] == attrs[j].1
  {
    if n - 1 > j {
      StigDataLastWins(attrs, n - 1, j);
    }
  }

  /** `stig_data.get(key) or ""`. */
  function DataOr(data: map<string, string>, key: string): string {
    if key in data then data[key] else ""
  }

  /** `raw.upper().startswith("PF-")`, for ASCII text. */
  predicate HasPfPrefix(raw: string) {
    StartsWith(Lower(raw), "pf-")
  }

  /**
   * The control id: Rule_ID, else Vuln_Num, else ""; a `PF-` prefix (any casing) dropped;
   * stripped; `item-{idx+1}` when nothing is left.
   */
  function ControlId(data: map<string, string>, idx: nat): string {
    var raw := if DataOr(data, "Rule_ID") != "" then DataOr(data, "Rule_ID") else DataOr(data, "Vuln_Num");
    var cid := Strip(if HasPfPrefix(raw) then raw[3..] else raw);
    if cid != "" then cid else "item-" + NatToString(idx + 1)
  }

  /** The section: text before the first " - " of the group title (stripped), or "Unknown". */
  function Section(data: map<string, string>): string {
    var groupTitle := Strip(if "Group_Title" in data then data["Group_Title"] else "");
    var section := if Contains(groupTitle, " - ") then Strip(BeforeFirst(groupTitle, " - ")) else groupTitle;
    if section != "" then section else "Unknown"
  }

  /** `STATUS_MAP.get(raw, "Not Reviewed")`. */
  function MapStatus(raw: string): string {
    if raw == "NotAFinding" then "Compliant"
    else if raw == "Open" then "Non Compliant"
    else if raw == "Not_Applicable" then "Non Applicable"
    else if raw == "Not_Reviewed" then "Not Reviewed"
    else "Not Reviewed"
  }

  /** `(vuln.findtext("STATUS") or "Not_Reviewed").strip()`, then the status table. */
  function VulnStatus(vuln: Node): string {
    var t := FindText(vuln, [Child("STATUS")]);
    MapStatus(Strip(if Truthy(t) then t.value else "Not_Reviewed"))
  }

  /** Stripped FINDING_DETAILS, or stripped COMMENTS when that is empty. */
  function VulnComment(vuln: Node): string {
    var details := ChildText(vuln, "FINDING_DETAILS");
    if details != "" then details else ChildText(vuln, "COMMENTS")
  }

  /** The item appended for the `idx`-th VULN, given its `stig_data`. */
  function ItemOf(data: map<string, string>, vuln: Node, idx: nat): Item {
    CklItem(Section(data), ControlId(data, idx), Strip(DataOr(data, "Rule_Title")),
            Strip(DataOr(data, "Vuln_Discuss")), Strip(DataOr(data, "Fix_Text")),
            VulnStatus(vuln), VulnComment(vuln), idx)
  }

  /** The item built from the `idx`-th VULN. */
  function VulnItem(vuln: Node, idx: nat): Item {
    ItemOf(StigData(Attrs(vuln), |Attrs(vuln)|), vuln, idx)
  }

  /** `[build(s[i], i) for i in range(n)]`: what the `enumerate` loop appends, in order. */
  function BuildEach<T, U>(s: seq<T>, n: nat, build: (T, nat) -> U): (r: seq<U>)
    requires n <= |s|
    ensures |r| == n
  {
    if n == 0 then [] else BuildEach(s, n - 1, build) + [build(s[n - 1], n - 1)]
  }

  /** The `i`-th result is built from the `i`-th element with index `i`. */
  lemma {:induction false} BuildEachAt<T, U>(s: seq<T>, n: nat, build: (T, nat) -> U, i: nat)
    requires i < n <= |s|
    ensures BuildEach(s, n, build)[i] == build(s[i], i)
  {
    if i < n - 1 {
      BuildEachAt(s, n - 1, build, i);
    }
  }

  /** What `load_ckl_items(path)` returns or raises. */
  function LoadCkl(file: CklFile, path: string): Result<seq<Item>> {
    match file
    case CklMissing => Err(Error("FileNotFoundError", "CKL file not found: " + path))
    case CklMalformed(msg) => Err(Error("ValueError", "Invalid XML in CKL file: " + msg))
    case CklParsed(root) =>
      match Find(root, IstigPath)
      case None => Err(Error("ValueError", "No <iSTIG> block found in CKL."))
      case Some(istig) =>
        var vulns := FindAll(istig, [Child("VULN")]);
        if vulns == [] then Err(Error("ValueError", "No VULN entries parsed from CKL."))
        else Ok(BuildEach(vulns, |vulns|, VulnItem))
  }

  /** `load_ckl_items`, with its loop over the VULN elements. */
  method LoadCklItems(file: CklFile, path: string) returns (res: Result<seq<Item>>)
    ensures res == LoadCkl(file, path)
  {
    match file {
      case CklMissing =>
        return Err(Error("FileNotFoundError", "CKL file not found: " + path));
      case CklMalformed(msg) =>
        return Err(Error("ValueError", "Invalid XML in CKL file: " + msg));
      case CklParsed(root) =>
        var istig := Find(root, IstigPath);
        if istig.None? {
          return Err(Error("ValueError", "No <iSTIG> block found in CKL."));
        }
        var vulns := FindAll(istig.value, [Child("VULN")]);
        var items: seq<Item> := [];
        var idx := 0;
        while idx < |vulns|
          invariant 0 <= idx <= |vulns|
          invariant items == BuildEach(vulns, idx, VulnItem)
        {
          var vuln := vulns[idx];
          var data := CollectStigData(Attrs(vuln));
          items := items + [ItemOf(data, vuln, idx)];
          idx := idx + 1;
        }
        if items == [] {
          return Err(Error("ValueError", "No VULN entries parsed from CKL."));
        }
        res := Ok(items);
    }
  }

  /** What `load_json_items(path)` returns or raises. */
  function LoadJson(file: JsonFile, path: string): Result<seq<Item>> {
    match file
    case JsonMissing => Err(Error("FileNotFoundError", "JSON file not found: " + path))
    case JsonMalformed(msg) => Err(Error("ValueError", "Invalid JSON: " + msg))
    case JsonNotAList => Err(Error("ValueError", "JSON file must contain a list of items"))
    case JsonList(items) => Ok(items)
  }

  /** `load_checklist_items`: the CKL when it exists and loads, otherwise the JSON loader's outcome. */
  function LoadChecklist(ckl: CklFile, cklPath: string, json: JsonFile, jsonPath: string): Result<seq<Item>> {
    if !ckl.CklMissing? && LoadCkl(ckl, cklPath).Ok? then LoadCkl(ckl, cklPath)
    else LoadJson(json, jsonPath)
  }

  // ----- properties -----

  /** The control id is never empty. */
  lemma ControlIdNeverEmpty(data: map<string, string>, idx: nat)
    ensures ControlId(data, idx) != ""
  {
  }

  /** Without Rule_ID or Vuln_Num the id is `item-{idx+1}`. */
  lemma ControlIdFallback(data: map<string, string>, idx: nat)
    requires DataOr(data, "Rule_ID") == "" && DataOr(data, "Vuln_Num") == ""
    ensures ControlId(data, idx) == "item-" + NatToString(idx + 1)
  {
    assert Strip("") == "";
    assert !HasPfPrefix("");
  }

  /** A `PF-` prefix of Rule_ID is dropped whatever its casing; Vuln_Num is used when Rule_ID is empty. */
  lemma ControlIdExamples()
    ensures ControlId(map["Rule_ID" := "PF-1.1"], 0) == "1.1"
    ensures ControlId(map["Rule_ID" := "pf-2.3"], 4) == "2.3"
    ensures ControlId(map["Rule_ID" := "", "Vuln_Num" := "V-100"], 0) == "V-100"
  {
    assert Lower("PF-1.1")[..3] == "pf-";
    assert "PF-1.1"[3..] == "1.1";
    StripNoEdgeSpace("1.1");
    assert Lower("pf-2.3")[..3] == "pf-";
    assert "pf-2.3"[3..] == "2.3";
    StripNoEdgeSpace("2.3");
    assert Lower("V-100")[0] == 'v';
    StripNoEdgeSpace("V-100");
  }

  /** The section is never empty. */
  lemma SectionNeverEmpty(data: map<string, string>)
    ensures Section(data) != ""
  {
  }

  /** A group title without " - " is the section as it stands (once stripped). */
  lemma SectionWithoutSeparator(data: map<string, string>)
    requires "Group_Title" in data
    requires !Contains(Strip(data["Group_Title"]), " - ")
    requires Strip(data["Group_Title"]) != ""
    ensures Section(data) == Strip(data["Group_Title"])
  {
  }

  /**
   * A group title with " - " gives the stripped text before its first " - ", or "Unknown"
   * when that is blank.
   */
  lemma SectionWithSeparator(data: map<string, string>, lead: string)
    requires "Group_Title" in data
    requires StartsWith(Strip(data["Group_Title"]), lead + " - ")
    requires forall j :: 0 <= j < |lead| ==> !OccursAt(Strip(data["Group_Title"]), " - ", j)
    ensures Section(data) == if Strip(lead) != "" then Strip(lead) else "Unknown"
  {
    var g := Strip(data["Group_Title"]);
    assert g[|lead|..|lead| + 3] == (lead + " - ")[|lead|..];
    assert OccursAt(g, " - ", |lead|);
    assert Contains(g, " - ");
    var r := BeforeFirst(g, " - ");
    assert |r| == |lead| by {
      assert !(|r| < |lead|);
      assert !(|lead| < |r|);
    }
    assert r == g[..|lead|] == lead;
  }

  /** A missing or blank group title gives "Unknown". */
  lemma SectionBlankTitle(data: map<string, string>)
    requires "Group_Title" !in data || Strip(data["Group_Title"]) == ""
    ensures Section(data) == "Unknown"
  {
    if "Group_Title" !in data {
      StripNoEdgeSpace("");
    }
    assert !Contains("", " - ");
  }

  /** The status table yields one of the four status strings, and maps the four CKL codes. */
  lemma MapStatusValid(raw: string)
    ensures S.IsStatusString(MapStatus(raw))
    ensures MapStatus("NotAFinding") == "Compliant" && MapStatus("Open") == "Non Compliant"
    ensures MapStatus("Not_Applicable") == "Non Applicable" && MapStatus("Not_Reviewed") == "Not Reviewed"
  {
  }

  /** An unknown or differently cased CKL status is Not Reviewed. */
  lemma UnknownStatusIsNotReviewed(raw: string)
    requires raw !in {"NotAFinding", "Open", "Not_Applicable"}
    ensures MapStatus(raw) == "Not Reviewed"
  {
  }

  /**
   * Stated on the raw element texts: FINDING_DETAILS, stripped, is the comment as soon as
   * it holds one non-whitespace character; when it is missing or all whitespace the
   * stripped COMMENTS text is used; either way the comment has no edge whitespace.
   */
  lemma CommentFallback(vuln: Node)
    ensures var details := OrEmpty(FindText(vuln, [Child("FINDING_DETAILS")]));
      (exists i :: 0 <= i < |details| && !IsSpace(details[i])) ==> VulnComment(vuln) == Strip(details)
    ensures var details := OrEmpty(FindText(vuln, [Child("FINDING_DETAILS")]));
      (forall i :: 0 <= i < |details| ==> IsSpace(details[i])) ==>
        VulnComment(vuln) == Strip(OrEmpty(FindText(vuln, [Child("COMMENTS")])))
    ensures var r := VulnComment(vuln); r == [] || (!IsSpace(r[0]) && !IsSpace(r[|r| - 1]))
  {
    StripProperties(OrEmpty(FindText(vuln, [Child("FINDING_DETAILS")])));
    StripProperties(OrEmpty(FindText(vuln, [Child("COMMENTS")])));
  }

  /** Every item built from a VULN has its position as row index, a non-empty control id and a valid status. */
  lemma VulnItemShape(vuln: Node, idx: nat)
    ensures VulnItem(vuln, idx).rowIndex == Present(idx)
    ensures VulnItem(vuln, idx).controlId.Present? && VulnItem(vuln, idx).controlId.value != ""
    ensures VulnItem(vuln, idx).status.Present? && S.IsStatusString(VulnItem(vuln, idx).status.value)
  {
    var data := StigData(Attrs(vuln), |Attrs(vuln)|);
    assert VulnItem(vuln, idx) == ItemOf(data, vuln, idx);
    assert ItemOf(data, vuln, idx).controlId == Present(ControlId(data, idx));
    ControlIdNeverEmpty(data, idx);
    var t := FindText(vuln, [Child("STATUS")]);
    var raw := Strip(if Truthy(t) then t.value else "Not_Reviewed");
    assert VulnStatus(vuln) == MapStatus(raw);
    MapStatusValid(raw);
  }

  /** A successful CKL load has one item per VULN, in order, each of the shape above. */
  lemma CklItemsShape(file: CklFile, path: string)
    requires LoadCkl(file, path).Ok?
    ensures file.CklParsed? && Find(file.root, IstigPath).Some?
    ensures var vulns := FindAll(Find(file.root, IstigPath).value, [Child("VULN")]);
      var items := LoadCkl(file, path).value;
      && |items| == |vulns| > 0
      && forall i :: 0 <= i < |items| ==> items[i] == VulnItem(vulns[i], i)
  {
    var vulns := FindAll(Find(file.root, IstigPath).value, [Child("VULN")]);
    forall i | 0 <= i < |vulns|
      ensures BuildEach(vulns, |vulns|, VulnItem)[i] == VulnItem(vulns[i], i)
    {
      BuildEachAt(vulns, |vulns|, VulnItem, i);
    }
  }

  /** A parsed CKL fails exactly when it has no iSTIG block or no VULN in it. */
  lemma CklFailures(root: Node, path: string)
    ensures Find(root, IstigPath).None? ==>
      LoadCkl(CklParsed(root), path) == Err(Error("ValueError", "No <iSTIG> block found in CKL."))
    ensures Find(root, IstigPath).Some? && FindAll(Find(root, IstigPath).value, [Child("VULN")]) == [] ==>
      LoadCkl(CklParsed(root), path) == Err(Error("ValueError", "No VULN entries parsed from CKL."))
    ensures Find(root, IstigPath).Some? && FindAll(Find(root, IstigPath).value, [Child("VULN")]) != [] ==>
      LoadCkl(CklParsed(root), path).Ok?
  {
  }

  /** The CKL wins when it loads; otherwise (absent, unparsable, empty) the JSON loader decides, and a non-list JSON value is an error. */
  lemma ChecklistFallback(ckl: CklFile, cklPath: string, json: JsonFile, jsonPath: string)
    ensures LoadCkl(ckl, cklPath).Ok? ==> LoadChecklist(ckl, cklPath, json, jsonPath) == LoadCkl(ckl, cklPath)
    ensures LoadCkl(ckl, cklPath).Err? ==> LoadChecklist(ckl, cklPath, json, jsonPath) == LoadJson(json, jsonPath)
    ensures LoadCkl(ckl, cklPath).Err? && json.JsonNotAList? ==>
      LoadChecklist(ckl, cklPath, json, jsonPath) == Err(Error("ValueError", "JSON file must contain a list of items"))
  {
  }
}
