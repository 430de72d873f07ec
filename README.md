# pfSense benchmark tool: the control-evaluation engine in Dafny

This project models the part of the pfSense benchmark tool that decides compliance:

- the status vocabulary;
- the per-device review store;
- the loaders that turn a DISA STIG Viewer `.ckl` checklist, or the JSON list, into catalog items;
- the rule checks that read a pfSense `config.xml` tree (and, for some controls, files over SSH);
- the orchestration that writes check results into the store through the control-id index;
- the summary and merged view a device's reviews produce;
- the CSV export rows and file names;
- the two spreadsheet scripts that turn the benchmark sheet into the JSON item list.

The package code (`app/reports.py`, `app/models.py`, `app/parsers.py`, `app/auto_checks.py`, `app/app_new.py`, `app/checks.py`) and the older single-file application (`app/app.py`) are modelled side by side. Where they behave differently, each is modelled as written. Lemmas state where they agree and where they do not.

Modules, one per component:

| module | file | models |
|---|---|---|
| `Wrappers` | `wrappers.dfy` | `Option`, `Result` and an error value with a type name and a message |
| `Text` | `text.dfy` | the Python string operations the code relies on: `strip`, `lower`, `split(sep)[0]`, `in`, `int()`, `f"{n}"` |
| `Status` | `status.dfy` | `ComplianceStatus`, `from_string`, `__str__` |
| `Store` | `store.dfy` | `Database` as a class whose device and review tables are Dafny maps |
| `Catalog` | `catalog.dfy` | a JSON-loaded item; `dict.get` with and without a default |
| `Reports` | `reports.dfy` | `compute_device_summary` and `build_device_items` |
| `ConfigTree` | `config_tree.dfy` | an element tree and the `find`/`findall`/`findtext` paths the checks use |
| `Remote` | `remote.dfy` | the SFTP capability of the SSH client: `read_file` and `file_exists` |
| `AutoChecks` | `auto_checks.dfy` | every `AutoChecker.check_*`, `_get_wan_rules` and `CHECK_REGISTRY` |
| `SimpleChecks` | `simple_checks.dfy` | the three functions of `app/checks.py` |
| `Parsers` | `parsers.dfy` | `load_ckl_items`, `load_json_items`, `load_checklist_items` |
| `App` | `app.dfy` | `app/app_new.py`: startup loading, `CONTROL_ID_TO_INDEX`, `_mark_control`, `run_auto_checks_ssh`, item detail, CSV export, `sanitize_filename` |
| `Legacy` | `legacy.dfy` | `app/app.py`: `_run_config_checks`, its `run_auto_checks_ssh`, its loader, summary, view and CSV file name |
| `Benchmark` | `benchmark.dfy` | `scripts/parse_benchmark.py` and the root `parse_benchmark.py` |

## Model

Modelling choices:

- Code that loops or updates state is modelled as methods with loop invariants:
  - the summary and view loops;
  - the STIG_DATA and VULN loops;
  - the control-index loop;
  - the registry loop;
  - the WAN rule filters;
  - the spreadsheet loop.
- Each method is proved equal to a specification function.
- The store is a class whose methods update its maps.
- Every check that writes to the store does so through `App.MarkControl`, which upserts one review.
- Pure case analyses are functions, with lemmas stating what they decide.

| member | source | states |
|---|---|---|
| Text.Strip | app/auto_checks.py:80 | `str.strip()`; its meaning is stated by `StripProperties` and `StripNoEdgeSpace` |
| Text.TrimLeft | app/auto_checks.py:80 | `str.lstrip()`; stated by `TrimLeftProperties` |
| Text.TrimRight | app/auto_checks.py:80 | `str.rstrip()`; stated by `TrimRightProperties` |
| Text.IndexOf | app/parsers.py:67 | the first occurrence of `sub`; stated by `IndexOfFrom` |
| Text.Contains | app/parsers.py:67 | `sub in s`: some occurrence exists, by the contract of `IndexOfFrom` |
| Text.ParseInt | app/auto_checks.py:133-141 | `int(text)`; stated by `IntRoundTrip` and `EmptyIsNotInt` |
| Text.TrimLeftProperties | app/auto_checks.py:80 | `lstrip` keeps a suffix that starts with non-whitespace and drops only whitespace |
| Text.TrimRightProperties | app/auto_checks.py:80 | `rstrip` keeps a prefix that ends with non-whitespace and drops only whitespace |
| Text.StripProperties | app/auto_checks.py:80 | `strip()` is "" exactly for all-whitespace strings and otherwise leaves no edge whitespace |
| Text.StripNoEdgeSpace | app/auto_checks.py:80 | a string with no edge whitespace is its own `strip()` |
| Text.Lower | app/auto_checks.py:98 | `lower()` keeps the length and lower-cases each character, ASCII letters only |
| Text.IndexOfFrom | app/parsers.py:67 | the position found is the first occurrence of `sub` at or after `from`, and None means there is none |
| Text.BeforeFirst | app/parsers.py:67 | `split(sep)[0]`: with `sep` present, the prefix that ends where its first occurrence starts, and then free of `sep`; without `sep`, the whole string |
| Text.NatToString | app/auto_checks.py:278 | the decimal rendering of a count is a non-empty digit string |
| Text.IntRoundTrip | app/auto_checks.py:134-137 | reading back the rendering of an integer with `int()` gives that integer |
| Text.EmptyIsNotInt | app/auto_checks.py:133-141 | `int("")` fails |
| Status.ToString | app/models.py:22-23 | `str(s)` is one of the four status values |
| Status.FromString | app/models.py:15-20 | one of the four exact values gives the member with that value; any other string gives NOT_REVIEWED |
| Status.Normalize | app/reports.py:42-45 | a missing status, or one outside the four values, counts as Not Reviewed; a valid one is kept |
| Status.FromStringToString | app/models.py:15-23 | `from_string(str(s)) == s` for every member |
| Status.ToStringInjective | app/models.py:9-13 | distinct members have distinct values |
| Status.FromStringIsCaseSensitive | app/models.py:18 | lower-case spellings of the values are Not Reviewed |
| Store.NoneIfEmpty | app/models.py:120 | `x or None` is None exactly for "" and otherwise keeps the text |
| Store.DropDevice | app/models.py:152 | deleting a device's reviews keeps exactly the other devices' entries, unchanged |
| Store.ReviewsOf | app/models.py:159-171 | a device's reviews are keyed by exactly its item indexes, with the stored review |
| Store.SaveThenGet | app/models.py:175-190 | after `save_review(d, i, s, n)` the device's reviews map `i` to `{s, n}` |
| Store.SecondSaveOverwrites | app/models.py:183-188 | a second save to the same key replaces both status and note |
| Store.SaveLeavesOtherKeys | app/models.py:183-188 | a save changes no other `(device, item_index)` entry |
| Store.SaveIsPerDevice | app/models.py:175-190 | a save for one device does not change what another device reads |
| Store.DeleteCascades | app/models.py:148-154 | after the delete the device has no reviews and other devices keep theirs |
| Store.NoReviewsIsEmpty | app/models.py:159-171 | a device without reviews reads an empty map |
| Store.Without | app/models.py:153 | the id list after a delete holds exactly the other ids |
| Store.Database.constructor | app/models.py:52-87 | a fresh database has no devices, no reviews, and an AUTOINCREMENT counter at 0 |
| Store.Database.GetDevice | app/models.py:89-97 | the row for a stored id, None for an unknown one |
| Store.Database.GetAllDevices | app/models.py:99-107 | every device once, with its row, in ascending id order |
| Store.Database.CreateDevice | app/models.py:109-127 | the new id is the counter plus one, above every existing id; optional fields are stored as None when empty; the id is appended to the ordered ids; reviews are untouched |
| Store.Database.UpdateDevice | app/models.py:129-146 | rewrites an existing row; an unknown id changes nothing; reviews, ids and the counter are untouched |
| Store.Database.DeleteDeviceAndReviews | app/models.py:148-157 | removes the row and all its reviews, after which `get_device` is None; the counter stays, so ids are never reused |
| Store.Database.GetReviewsForDevice | app/models.py:159-173 | item_index to review, for exactly that device's rows |
| Store.Database.SaveReview | app/models.py:175-194 | upsert of `(device_id, item_index)`; the device table, the ids and the counter are untouched |
| Catalog.Get | app/reports.py:35 | `item.get(key, default)` gives the default only for a missing key and None for a JSON null |
| Catalog.Lookup | app/app_new.py:62 | `item.get(key)` is the stored value when the key holds one, and None for a missing key or a JSON null |
| Reports.EffectiveStatus | app/reports.py:35-45 | the status an item counts under; stated by `EffectiveStatusCases` |
| Reports.Summarize | app/reports.py:12-77 | the summary dictionary; stated by `SummaryPartition`, `PctBounds` and `SectionCountsSum`, and computed by `ComputeDeviceSummary` |
| Reports.CompliancePct | app/reports.py:59-65 | the compliance percentage; stated by `PctBounds`, `PctWhenNothingReviewed` and `PctOverReviewed` |
| Reports.SectionCounts | app/reports.py:49-51 | `section_non_compliant`; stated by `SectionCountsMeaning` and `SectionCountsSum` |
| Reports.ViewItem | app/reports.py:96-111 | one merged view item; stated by `ViewItemFields` and `ViewAgreesWithSummary` |
| Reports.CountStatus | app/reports.py:34-47 | the number of items counted under a status never exceeds the number scanned |
| Reports.NonCompliantIn | app/reports.py:49-51 | a section's Non Compliant count is at most the Non Compliant total |
| Reports.ComputeDeviceSummary | app/reports.py:12-77 | the loop computes the summary function: counts, reviewed, percentage and per-section counts |
| Reports.CountsPartition | app/reports.py:42-47 | each item is counted under exactly one of the four statuses |
| Reports.SummaryPartition | app/reports.py:23-57 | the four counts sum to `total_items`; `reviewed + not_reviewed == total_items`; compliant and non-applicable are within reviewed |
| Reports.PctBounds | app/reports.py:59-65 | the unrounded percentage lies in [0, 100] |
| Reports.PctWhenNothingReviewed | app/reports.py:62-65 | with nothing reviewed (or no items) the percentage is 0 |
| Reports.PctOverReviewed | app/reports.py:63-65 | with at least one reviewed item the percentage is (compliant + non_applicable) / reviewed * 100 |
| Reports.EffectiveStatusCases | app/reports.py:35-45 | an item counts under its override if any, else its base status, else Not Reviewed; invalid values count as Not Reviewed |
| Reports.SectionCountsMeaning | app/reports.py:49-51 | `section_non_compliant` has a key exactly for sections with a Non Compliant item, holding their number |
| Reports.SectionCountsSum | app/reports.py:49-56 | the per-section counts add up to `non_compliant` |
| Reports.SampleDefaults | tests/test_reports.py:47-57 | without overrides the sample catalog has 3 reviewed items and one of each status |
| Reports.SamplePercentage | tests/test_reports.py:72-83 | overrides C, C, NC, NA give 75 percent |
| Reports.SampleSections | tests/test_reports.py:85-94 | Non Compliant overrides in two sections give one per section |
| Reports.BuildDeviceItems | app/reports.py:80-113 | one view item per catalog item, in order, each the merge of that item with its override |
| Reports.ViewItemFields | app/reports.py:96-111 | only index, status and comment change; index is the position; an override's status is passed through even when invalid; without one a missing status becomes Not Reviewed and a present or null one is kept; the comment is exactly the truthy note, else "" |
| Reports.ViewAgreesWithSummary | app/reports.py:96-110 | the view's status, once validated, is the status the summary counts for that item |
| ConfigTree.StepFrom | app/auto_checks.py:86 | the nodes one path step selects from one element; stated by `ChildStepIsDirect` and `SelectSingle` |
| ConfigTree.Select | app/auto_checks.py:86 | one step over every context node, results in context order; stated by `SelectSingle` |
| ConfigTree.Eval | app/auto_checks.py:86 | a path evaluated step by step; stated by `SelectSingle` and `ChildResultsAreDescResults` |
| ConfigTree.FindAll | app/auto_checks.py:86 | `elem.findall(path)`; stated by `ChildStepIsDirect`, `ChildResultsAreDescResults` and `BareStepMissesNested` |
| ConfigTree.WithTag | app/auto_checks.py:395 | the children with a tag: no more than there were, and exactly those with that tag; order and multiplicity are stated by `WithTagAppend` |
| ConfigTree.WithTagAppend | app/auto_checks.py:395 | filtering by tag distributes over concatenation, so it keeps document order and duplicates |
| ConfigTree.Find | app/auto_checks.py:390 | `find` is None exactly when `findall` finds nothing, else its first match |
| ConfigTree.FindText | app/auto_checks.py:79 | `findtext` is None without a match, else the match's text or "" |
| ConfigTree.SelectSingle | app/auto_checks.py:202 | a one-step path from the root is that step taken from the root |
| ConfigTree.ChildStepIsDirect | app/auto_checks.py:202 | a bare `tag` path finds exactly the root's direct children with that tag |
| ConfigTree.ChildResultsAreDescResults | app/auto_checks.py:243 | whatever a bare `tag` finds, `.//tag` finds as well |
| ConfigTree.BareStepMissesNested | app/auto_checks.py:202 | on a config with a nested `<unbound>`, `unbound` finds nothing while `.//unbound` finds it |
| ConfigTree.FindTextOfEmptyElement | app/auto_checks.py:131-134 | `findtext` on an element without text is "", not None |
| Remote.ReadFile | app/ssh_client.py:125-153 | raises when not connected or when opening or reading the file fails; None for a missing file; else the contents |
| Remote.FileExists | app/ssh_client.py:155-177 | raises only when not connected; True exactly for an existing file whose `stat` does not fail, so a failing `stat` reads as False independently of whether a read would fail |
| Remote.ReadableFileExists | app/ssh_client.py:125-177 | a file that reads as text exists for `file_exists` unless its `stat` fails |
| Remote.ExistingFileReads | app/ssh_client.py:125-177 | a file `file_exists` finds reads as its contents unless its read fails, in which case `read_file` raises that error |
| AutoChecks.SshBanner | app/auto_checks.py:32-57 | 1.1; stated by `SshBannerCompliantIff`, `SshChecksNeedSsh` and `SshCheckErrorsAreCaught` |
| AutoChecks.Motd | app/auto_checks.py:59-75 | 1.3; stated by `SshChecksNeedSsh` and `SshCheckErrorsAreCaught` |
| AutoChecks.Hostname | app/auto_checks.py:77-82 | 1.4; stated by `HostnameCompliantIff` |
| AutoChecks.DnsServers | app/auto_checks.py:84-92 | 1.5; related to the stand-alone check by `SimpleChecks.DnsServersWeakerThanClassBased` |
| AutoChecks.Ipv6Disabled | app/auto_checks.py:94-106 | 1.6; stated by `Ipv6Cases` and `Ipv6UpperCaseInet` |
| AutoChecks.SessionTimeout | app/auto_checks.py:129-143 | 2.1; stated by `SessionTimeoutCases` and `EmptySessionTimeout` |
| AutoChecks.AuthServers | app/auto_checks.py:145-157 | 2.2; computed by `CheckAuthServers`, names stated by `AuthServerNames` |
| AutoChecks.SnmpTraps | app/auto_checks.py:210-238 | 5.1.1 and 5.1.2; stated by `SnmpTrapsNonApplicableIff` |
| AutoChecks.NetsnmpPackage | app/auto_checks.py:240-264 | 5.1.3, the one check that can raise; stated by `OnlyNetsnmpRaises` |
| AutoChecks.VpnAuth | app/auto_checks.py:342-352 | 5.4.1; stated by `VpnCases` |
| AutoChecks.VpnCertificate | app/auto_checks.py:354-364 | 5.4.2; stated by `VpnCases` |
| AutoChecks.OpenvpnTls | app/auto_checks.py:366-375 | 5.4.3; stated by `OpenvpnCases` |
| AutoChecks.OpenvpnCipher | app/auto_checks.py:377-386 | 5.5.1; stated by `OpenvpnCases` |
| AutoChecks.Flags | app/auto_checks.py:266-340 | the property each WAN check looks for in a rule; stated by `IcmpCheckIgnoresOtherProtocols` and `WanCheckNonCompliantIff` |
| AutoChecks.WanRules | app/auto_checks.py:388-400 | `_get_wan_rules`; stated by `WanRulesAreFilterChildren` and `NoFilterMeansCompliant`, computed by `GetWanRules` |
| AutoChecks.WanVerdict | app/auto_checks.py:277-279 | the verdict over flagged rules; stated by `WanVerdictNonCompliantIff` and `WanVerdictNote` |
| AutoChecks.WanCheck | app/auto_checks.py:266-340 | 4.1.1 to 4.1.6; stated by `WanCheckNonCompliantIff`, computed by `RunWanCheck` |
| AutoChecks.RunCheck | app/auto_checks.py:404-432 | a registry entry applied to the checker; stated by `OnlyNetsnmpRaises`, computed by `Run` |
| AutoChecks.NonEmptyTexts | app/auto_checks.py:88 | the DNS texts collected are non-empty and no more than the elements |
| AutoChecks.AuthServerNames | app/auto_checks.py:149-153 | the names collected are non-empty and at most one per server |
| AutoChecks.CheckAuthServers | app/auto_checks.py:145-157 | the loop over `<authserver>` blocks gives the 2.2 result function |
| AutoChecks.Keep | app/auto_checks.py:394-398 | the nodes kept from the first `n` positions, no more than `n`; membership, count and order are stated by `KeepMembers`, `KeepCount` and `KeepSplit` |
| AutoChecks.KeepMembers | app/auto_checks.py:394-398 | the nodes kept are among the nodes and pass the test, and every node that passes is kept |
| AutoChecks.KeepCount | app/auto_checks.py:277-278 | one node is kept per position that passes the test, so `len(flagged)` counts positions, duplicates included |
| AutoChecks.KeepSplit | app/auto_checks.py:394-398 | keeping splits at any position into what the earlier nodes give, then what the later ones give: document order is kept |
| AutoChecks.KeepPrefix | app/auto_checks.py:394-398 | keeping from the first `k` nodes does not look past them |
| AutoChecks.KeepAppend | app/auto_checks.py:394-398 | keeping distributes over concatenation |
| AutoChecks.KeepKeep | app/auto_checks.py:394-398 | keeping with one test and then another is keeping with their conjunction |
| AutoChecks.WithTagIsKeep | app/auto_checks.py:395 | `findall("rule")` on a filter is keeping its children with the tag test |
| AutoChecks.KeepAll | app/auto_checks.py:394-398 | the filtering loop keeps exactly what `Keep` describes |
| AutoChecks.KeepNonEmptyIff | app/auto_checks.py:277-279 | something is kept exactly when some rule satisfies the predicate |
| AutoChecks.GetWanRules | app/auto_checks.py:388-400 | the loop returns the WAN rules of the config |
| AutoChecks.RunWanCheck | app/auto_checks.py:266-340 | fetching the WAN rules and collecting the flagged ones gives the WAN check's result |
| AutoChecks.Run | app/auto_checks.py:404-432 | running a registry entry, loops included, gives that check's result or the exception it raises |
| AutoChecks.NoFilterMeansCompliant | app/auto_checks.py:390-392 | without `<filter>` there are no WAN rules and all six WAN checks are Compliant |
| AutoChecks.WanVerdictNonCompliantIff | app/auto_checks.py:277-279 | a WAN verdict is Non Compliant exactly when some rule is flagged, else Compliant |
| AutoChecks.WanVerdictNote | app/auto_checks.py:277-278 | a Non Compliant verdict's note gives the number of positions whose rule is flagged |
| AutoChecks.WanCheckNonCompliantIff | app/auto_checks.py:266-340 | each WAN check is Non Compliant exactly when some WAN rule has its property, else Compliant; the Non Compliant note gives the number of such rules |
| AutoChecks.WanRulesAreFilterChildren | app/auto_checks.py:388-400 | the WAN rules are exactly the `<rule>` children of the first `.//filter` whose stripped interface is "wan", and, with a filter, they are those children kept in document order |
| AutoChecks.IcmpCheckIgnoresOtherProtocols | app/auto_checks.py:327-340 | a rule whose protocol is not ICMP never counts against 4.1.6 |
| AutoChecks.SshChecksNeedSsh | app/auto_checks.py:32-62 | without SSH, 1.1 and 1.3 are Not Reviewed whatever the config holds |
| AutoChecks.SshCheckErrorsAreCaught | app/auto_checks.py:37-57 | an exception inside 1.1 or 1.3 becomes Not Reviewed with `Auto-check error: <type> - <msg>` |
| AutoChecks.ExistingUnreadableFile | app/auto_checks.py:32-75 | an /etc/motd, or (after a Banner line) an /etc/issue.net, that `stat` finds but that fails to open makes 1.3, or 1.1, Not Reviewed with `Auto-check error: <type> - <msg>` |
| AutoChecks.NetsnmpCountsUnreadableConf | app/auto_checks.py:240-264 | either snmpd.conf that `stat` finds makes 5.1.3 Compliant (NET-SNMP detected), whether it can be read or not |
| AutoChecks.SshBannerCompliantIff | app/auto_checks.py:32-57 | 1.1 is Compliant exactly when sshd_config has a `Banner` line and /etc/issue.net exists with content |
| AutoChecks.HostnameCompliantIff | app/auto_checks.py:77-82 | 1.4 is Compliant exactly for a hostname that is not blank after strip |
| AutoChecks.SessionTimeoutCases | app/auto_checks.py:129-143 | 2.1: an integer up to 10 is Compliant; a larger one, non-integer text and a missing element are Non Compliant |
| AutoChecks.EmptySessionTimeout | app/auto_checks.py:131-142 | an empty `<session_timeout/>` takes the "not a valid integer" branch |
| AutoChecks.Ipv6Cases | app/auto_checks.py:94-106 | 1.6 is Not Reviewed exactly when ipprotocol is missing or empty, and Compliant for inet or ipv4 in any casing |
| AutoChecks.Ipv6UpperCaseInet | app/auto_checks.py:97-100 | "INET" is Compliant for 1.6 |
| AutoChecks.VpnCases | app/auto_checks.py:342-364 | 5.4.1 and 5.4.2 are Non Applicable exactly without an OpenVPN server and an IPsec phase1, else Not Reviewed |
| AutoChecks.OpenvpnCases | app/auto_checks.py:366-386 | 5.4.3 and 5.5.1 are Non Applicable exactly without an OpenVPN server, else Not Reviewed |
| AutoChecks.SnmpTrapsNonApplicableIff | app/auto_checks.py:210-228 | 5.1.1/5.1.2 are Non Applicable exactly with no rocommunity and blank snmpd.conf text |
| AutoChecks.OnlyNetsnmpRaises | app/auto_checks.py:249-254 | every check but 5.1.3 handles its own failures; only 5.1.3 can raise |
| AutoChecks.RegistryShape | app/auto_checks.py:404-432 | the registry has 27 distinct control ids in declared order, and 5.1.1 and 5.1.2 share the trap check |
| SimpleChecks.WebguiHttps | app/checks.py:1-6 | `check_webgui_https`; stated by `WebguiHttpsIff` |
| SimpleChecks.DnsServers | app/checks.py:8-12 | `check_dns_servers`; stated by `DnsServersIff` |
| SimpleChecks.Ipv6 | app/checks.py:14-18 | `check_ipv6`; stated by `Ipv6Iff` |
| SimpleChecks.OnlyCompliantOrNot | app/checks.py:1-18 | the three checks answer only Compliant or Non Compliant |
| SimpleChecks.WebguiHttpsIff | app/checks.py:1-6 | Compliant exactly when the protocol text lower-cases to "https"; a missing element is Non Compliant |
| SimpleChecks.DnsServersIff | app/checks.py:8-12 | Compliant exactly when some `system/dnsserver` exists, whatever its text; the note carries the count |
| SimpleChecks.Ipv6Iff | app/checks.py:14-18 | Compliant exactly when the protocol text is "ipv4" as written; otherwise Non Compliant with "IPv6 enabled" |
| SimpleChecks.Ipv6IsStrict | app/checks.py:14-18 | corollary of `Ipv6Iff`: "inet", "IPv4" and a missing element are Non Compliant here |
| SimpleChecks.Ipv6AgreesWhenCompliant | app/checks.py:14-18 | where this check is Compliant the class-based 1.6 check is too |
| SimpleChecks.DnsServersWeakerThanClassBased | app/checks.py:8-12 | where the class-based 1.5 check is Compliant this one is too |
| Parsers.StigData | app/parsers.py:53-58 | the `stig_data` dictionary; stated by `StigDataKeys` and `StigDataLastWins`, computed by `CollectStigData` |
| Parsers.ControlId | app/parsers.py:61-63 | the control id; stated by `ControlIdNeverEmpty`, `ControlIdFallback` and `ControlIdExamples` |
| Parsers.Section | app/parsers.py:66-68 | the section; stated by `SectionNeverEmpty`, `SectionWithoutSeparator`, `SectionWithSeparator` and `SectionBlankTitle` |
| Parsers.MapStatus | app/parsers.py:44-49 | `STATUS_MAP.get`; stated by `MapStatusValid` |
| Parsers.VulnStatus | app/parsers.py:71-72 | the item status; stated by `UnknownStatusIsNotReviewed` |
| Parsers.VulnComment | app/parsers.py:75-78 | the item comment; stated by `CommentFallback` |
| Parsers.VulnItem | app/parsers.py:60-89 | one item from one VULN; stated by `VulnItemShape` |
| Parsers.LoadCkl | app/parsers.py:15-95 | `load_ckl_items`; stated by `CklItemsShape` and `CklFailures`, computed by `LoadCklItems` |
| Parsers.LoadJson | app/parsers.py:98-128 | `load_json_items`; stated by `ChecklistFallback` |
| Parsers.LoadChecklist | app/parsers.py:131-148 | `load_checklist_items`; stated by `ChecklistFallback` |
| Parsers.Attrs | app/parsers.py:54-56 | one (name, value) pair per STIG_DATA element |
| Parsers.CollectStigData | app/parsers.py:53-58 | the `stig_data` loop builds the `StigData` map |
| Parsers.StigDataKeys | app/parsers.py:57-58 | a name is a key exactly when it is non-empty and some pair carries it |
| Parsers.StigDataLastWins | app/parsers.py:57-58 | a name maps to the value of its last pair |
| Parsers.BuildEach | app/parsers.py:52-89 | the `enumerate` loop appends one item per element |
| Parsers.BuildEachAt | app/parsers.py:80-89 | item `i` is built from element `i` with index `i` |
| Parsers.LoadCklItems | app/parsers.py:15-95 | the loader's loops give the `LoadCkl` result |
| Parsers.ControlIdNeverEmpty | app/parsers.py:61-63 | the control id is never empty |
| Parsers.ControlIdFallback | app/parsers.py:63 | without Rule_ID or Vuln_Num the id is `item-{idx+1}` |
| Parsers.ControlIdExamples | app/parsers.py:61-62 | a `PF-` prefix is dropped in any casing; Vuln_Num is used when Rule_ID is empty |
| Parsers.SectionNeverEmpty | app/parsers.py:66-68 | the section is never empty |
| Parsers.SectionWithoutSeparator | app/parsers.py:67 | a group title without " - " is the section as it stands |
| Parsers.SectionWithSeparator | app/parsers.py:66-68 | a title with " - " gives the stripped text before its first " - ", or "Unknown" when that is blank |
| Parsers.SectionBlankTitle | app/parsers.py:66-68 | a missing or blank Group_Title gives "Unknown" |
| Parsers.MapStatusValid | app/parsers.py:44-49 | the status table maps the four CKL codes and always yields one of the four statuses |
| Parsers.UnknownStatusIsNotReviewed | app/parsers.py:71-72 | an unknown or differently cased CKL status is Not Reviewed |
| Parsers.CommentFallback | app/parsers.py:75-78 | on the raw texts: FINDING_DETAILS with one non-whitespace character gives the comment (stripped); a missing or all-whitespace one falls back to stripped COMMENTS; the comment never has edge whitespace |
| Parsers.VulnItemShape | app/parsers.py:60-89 | each item has its position as row index, a non-empty control id and a valid status |
| Parsers.CklItemsShape | app/parsers.py:51-95 | a successful load has one item per VULN, in order |
| Parsers.CklFailures | app/parsers.py:40-92 | a parsed CKL fails exactly when it has no iSTIG block or no VULN |
| Parsers.ChecklistFallback | app/parsers.py:131-148 | the CKL wins when it loads; otherwise JSON decides, and a non-list JSON value is an error |
| App.StartupItems | app/app_new.py:52-57 | the catalog loaded at startup; stated by `StartupItemsCases` |
| App.IndexBy | app/app_new.py:60-64 | the index built from the items; stated by `IndexBySound`, `IndexByComplete` and `IndexByLastWins` |
| App.ControlIndex | app/app_new.py:60-64 | `CONTROL_ID_TO_INDEX`; stated by `ControlIndexMeaning`, computed by `BuildControlIndex` |
| App.ApplyMark | app/app_new.py:182-196 | one `_mark_control` call on the reviews; stated by `MarkEffect` and `MarksStayOnDevice` |
| App.ApplyMarks | app/app_new.py:157-168 | marks applied in order; stated by `MarksStayOnDevice` |
| App.CheckMark | app/app_new.py:158-168 | the mark one registry entry yields; stated by `MarkOutcome` and `RaisingCheckMark` |
| App.AutoCheckMarks | app/app_new.py:117-179 | the marks one run writes; stated by `AutoCheckMarksShape` and `MissingTargetWritesNothing` |
| App.ItemDetail | app/app_new.py:306-328 | the item detail page data over the devices and reviews tables; stated by `ItemDetailAgreesWithView` |
| App.StartupItemsCases | app/app_new.py:52-57 | startup never fails: a loaded CKL is used as is; when nothing loads the catalog is empty |
| App.BuildControlIndex | app/app_new.py:60-64 | the loop builds `ControlIndex` |
| App.IndexBySound | app/app_new.py:60-64 | every key comes from an item and points at an item carrying it |
| App.IndexByComplete | app/app_new.py:60-64 | every item with a key has that key in the index |
| App.IndexByLastWins | app/app_new.py:60-64 | a key maps to the last item carrying it |
| App.ControlIndexMeaning | app/app_new.py:60-64 | the index maps exactly the stripped truthy control ids, each to its last position |
| App.BlankIdIndexedUnderEmptyKey | app/app_new.py:62-64 | a blank control id passes the truthiness test and is indexed under "" |
| App.MarkControl | app/app_new.py:182-196 | `_mark_control` changes the reviews as `ApplyMark` says and nothing else |
| App.MarkEffect | app/app_new.py:182-196 | an unknown control id writes nothing; a known one upserts exactly `(device, index[id])` |
| App.MarksStayOnDevice | app/app_new.py:196 | marks for one device never change another device's reviews |
| App.MarksOf | app/app_new.py:157-168 | one mark per registry entry |
| App.RunAutoChecksSsh | app/app_new.py:117-179 | the reviews after a run are the marks of `AutoCheckMarks` applied in order; devices untouched |
| App.RunRegistry | app/app_new.py:157-168 | the registry loop applies each entry's mark in order |
| App.MarkOutcome | app/app_new.py:158-168 | one entry writes its check's verdict, or Not Reviewed with the error it raised |
| App.MarksOfAt | app/app_new.py:157-168 | mark `i` is entry `i`'s own outcome, so a raising check affects only its control |
| App.RaisingCheckMark | app/app_new.py:161-168 | a raising check is marked Not Reviewed with `Auto-check error: <type> - <msg>` |
| App.MissingTargetWritesNothing | app/app_new.py:125-130 | a blank mgmt_ip or ssh_user (after strip) means nothing is written |
| App.MarksOfIds | app/app_new.py:157-160 | the marks carry the registry's control ids, in order |
| App.AutoCheckMarksShape | app/app_new.py:134-179 | a failed session, read or parse, or an empty config.xml writes only 1.4 as Not Reviewed; otherwise each entry is marked once, in order |
| App.ItemDetailAgreesWithView | app/app_new.py:306-328 | the detail exists (no 404) exactly for a device id with a row and an index inside the catalog, and then shows that device's view status and comment; a missing row_index defaults to the index |
| App.CsvRow | app/app_new.py:392-402 | every data row has as many cells as the header |
| App.ExportCsvRows | app/app_new.py:379-402 | the header, then one row per view item, in order |
| App.CsvRowOfView | app/app_new.py:391-402 | row `i + 1` has nine cells, carries item `i`'s control id, and its merged status and note |
| App.DropUnsafe | app/app_new.py:109 | `re.sub(r"[^\w\s-]", "", s)`; stated by `DropOneUnsafe` |
| App.SpacesToUnderscores | app/app_new.py:111 | the same length, each space replaced by `_` |
| App.CollapseUnderscores | app/app_new.py:113 | no longer than its input and made of its characters; `CollapseDoubleUnderscore` and `CollapseKeepsOthers` state what each run becomes |
| App.CollapseDoubleUnderscore | app/app_new.py:113 | a double underscore anywhere collapses as a single one would, so each run becomes one `_` |
| App.CollapseKeepsOthers | app/app_new.py:113 | removing the underscores from the result and from the input gives the same string: every other character is kept, in order |
| App.SanitizeFilename | app/app_new.py:98-114 | `sanitize_filename`; stated by `SanitizedNameIsSafe`, `SanitizeIdempotent` and `SanitizeExample` |
| App.CsvFilename | app/app_new.py:407-409 | the export filename; stated by `CsvFilenameHasNoSpaceFromName` |
| App.SanitizedNameIsSafe | app/app_new.py:108-114 | the result holds only word characters, whitespace and `-`, no space and no `__` |
| App.SanitizeIdempotent | app/app_new.py:108-114 | sanitising twice is sanitising once |
| App.SanitizeExample | app/app_new.py:98-114 | "Edge FW #1" becomes "Edge_FW_1" |
| App.DropOneUnsafe | app/app_new.py:109 | dropping from a string with one unsafe character removes exactly that character |
| App.CsvFilenameHasNoSpaceFromName | app/app_new.py:407-409 | whatever the device name, the export filename contains a space exactly when the timestamp does |
| Legacy.InlineMarks | app/app.py:378-1016 | the marks the check blocks write, in order; stated by `InlineMarksIds`, computed by `RunInlineChecks` |
| Legacy.SystemMarks | app/app.py:449-680 | the config.xml blocks through 6.1; stated by `SystemMarksIds` |
| Legacy.ConfigCheckMarks | app/app.py:368-1016 | `_run_config_checks`; stated by `ConfigCheckIds`, computed by `RunConfigChecks` |
| Legacy.ConnectedMarks | app/app.py:1031-1049 | the marks of a connected run; computed by `RunConnected` |
| Legacy.LegacyAutoCheckMarks | app/app.py:1019-1060 | the legacy `run_auto_checks_ssh`; stated by `LegacyAutoCheckShape` and `EmptyOutputNotesStderr` |
| Legacy.BannerMark | app/app.py:379-418 | the 1.1 block writes control 1.1 (its status is stated by the lemmas below) |
| Legacy.BannerMarks | app/app.py:379-418 | 1.1 is written once with an SSH client and not at all without one |
| Legacy.MotdMark | app/app.py:421-447 | the 1.3 block writes control 1.3 |
| Legacy.MotdMarks | app/app.py:421-447 | 1.3 is written once with an SSH client and not at all without one |
| Legacy.HostnameMark | app/app.py:450-464 | the 1.4 block writes control 1.4 |
| Legacy.DnsMark | app/app.py:467-490 | the 1.5 block writes control 1.5 |
| Legacy.Ipv6Mark | app/app.py:493-516 | the 1.6 block writes control 1.6 |
| Legacy.WebguiMark | app/app.py:519-533 | the 1.8 block writes control 1.8 |
| Legacy.NtpMark | app/app.py:536-560 | the 1.10 block writes control 1.10 |
| Legacy.SessionTimeoutMark | app/app.py:563-594 | the 2.1 block writes control 2.1 |
| Legacy.AuthServersMark | app/app.py:597-624 | the 2.2 block writes control 2.2 |
| Legacy.SnmpCommunityMark | app/app.py:627-643 | the 3.1 block writes control 3.1 |
| Legacy.CaptivePortalMark | app/app.py:645-661 | the 3.2 block writes control 3.2 |
| Legacy.SyslogMark | app/app.py:664-680 | the 6.1 block writes control 6.1 |
| Legacy.TrapMarks | app/app.py:724-749 | the trap test writes 5.1.1 then 5.1.2 |
| Legacy.NetsnmpMark | app/app.py:751-764 | the package test writes 5.1.3 |
| Legacy.SnmpMarks | app/app.py:700-764 | the SNMP block writes 5.1.1, 5.1.2, 5.1.3, once each, in order |
| Legacy.TimezoneMark | app/app.py:767-781 | the 5.2.1 block writes control 5.2.1 |
| Legacy.DnssecMark | app/app.py:784-807 | the 5.3.1 block writes control 5.3.1 |
| Legacy.VpnMarks | app/app.py:810-871 | the VPN block writes 5.4.1, 5.4.2, 5.4.3, 5.5.1, once each, in order |
| Legacy.WanMark | app/app.py:874-1008 | WAN block `k` writes the `k`-th of 4.1.1 to 4.1.6 |
| Legacy.WanMarks | app/app.py:874-1016 | the WAN block writes 4.1.1 to 4.1.6, once each, in order, with or without a filter |
| Legacy.MarkEach | app/app.py:360-365 | a run of `_mark_control` calls applies its marks in order and touches no device row |
| Legacy.RunInlineChecks | app/app.py:378-1016 | the check blocks apply `InlineMarks` in order |
| Legacy.RunConfigChecks | app/app.py:368-1016 | `_run_config_checks` applies `ConfigCheckMarks` in order; devices untouched |
| Legacy.RunConnected | app/app.py:1031-1049 | once connected, the reviews are `ConnectedMarks` applied in order |
| Legacy.LegacyRunAutoChecksSsh | app/app.py:1019-1060 | the reviews after a run are `LegacyAutoCheckMarks` applied in order; devices untouched |
| Legacy.HasIdsExcludes | app/app.py:360-365 | a control not among the written ids receives no mark |
| Legacy.InlineMarksIds | app/app.py:378-1016 | 1.1 and 1.3 are written first and only with an SSH client; every other control once, in source order |
| Legacy.SystemMarksIds | app/app.py:449-680 | the config.xml blocks write 1.4 through 6.1 once each, in source order |
| Legacy.ConfigCheckIds | app/app.py:368-1016 | `_run_config_checks` writes each control of its list once, in source order, whatever config.xml holds |
| Legacy.InlineIdsExclude | app/app.py:449-1016 | the config.xml blocks never write 1.1 or 1.3 |
| Legacy.NoSshLeavesBannerAndMotd | app/app.py:378-447 | without an SSH client 1.1 and 1.3 receive no write at all |
| Legacy.HostnameNotStripped | app/app.py:450-464 | 1.4 is Compliant for any non-empty hostname text, blank included, unlike the class-based check |
| Legacy.NoFilterMarksNotReviewed | app/app.py:1009-1016 | without `<filter>` all six WAN controls are Not Reviewed, where the class-based checks are Compliant |
| Legacy.WanMarkWithFilter | app/app.py:874-1008 | with a filter, WAN control `k` is Non Compliant exactly when some WAN rule has its property, with the class-based note |
| Legacy.WanAgrees | app/app.py:874-882 | the inline WAN rules are the class-based WAN rules, so with a filter the two agree |
| Legacy.SnmpMarksAgree | app/app.py:700-764 | with no community and blank snmpd.conf all three SNMP controls are Non Applicable; 5.1.1 and 5.1.2 always share a status |
| Legacy.SnmpWithoutSsh | app/app.py:689-700 | without SSH and with an empty community, SNMP is Non Applicable |
| Legacy.SnmpDisabledMarks | app/app.py:715-722 | without SNMP evidence every SNMP control is Non Applicable |
| Legacy.VpnAgrees | app/app.py:810-871 | the VPN controls carry the class-based statuses: Non Applicable or Not Reviewed, never Compliant |
| Legacy.DnsAgrees | app/app.py:467-490 | the inline 1.5 status equals the class-based one |
| Legacy.Ipv6Agrees | app/app.py:493-516 | the inline 1.6 status and note equal the class-based ones |
| Legacy.WebguiAgrees | app/app.py:519-533 | the inline 1.8 status and note equal the class-based ones |
| Legacy.NtpAgrees | app/app.py:536-560 | the inline 1.10 status equals the class-based one |
| Legacy.SessionTimeoutAgrees | app/app.py:563-594 | the inline 2.1 status and note equal the class-based ones |
| Legacy.AuthServersAgree | app/app.py:597-624 | the inline 2.2 status equals the class-based one |
| Legacy.SnmpCommunityAgrees | app/app.py:627-643 | the inline 3.1 status equals the class-based one |
| Legacy.CaptivePortalAgrees | app/app.py:645-661 | the inline 3.2 status equals the class-based one |
| Legacy.SyslogAndTimezoneAgree | app/app.py:664-680 | the inline 6.1 and 5.2.1 statuses equal the class-based ones |
| Legacy.DnssecAgrees | app/app.py:784-807 | the inline 5.3.1 status equals the class-based one |
| Legacy.LegacyAutoCheckShape | app/app.py:1019-1054 | nothing is written without a target; otherwise only 1.4 as Not Reviewed, or every inline block with the SSH client |
| Legacy.EmptyOutputNotesStderr | app/app.py:1043-1046 | an empty `cat` output writes only 1.4, with stderr in the note |
| Legacy.LegacyLoadChecklist | app/app.py:94-105 | the legacy loader; stated by `LegacyLoaderAgrees` |
| Legacy.LegacyLoaderAgrees | app/app.py:94-105 | where the package loader yields items the legacy loader yields the same; a non-list JSON value is returned by the legacy loader only |
| Legacy.LegacyComputeDeviceSummary | app/app.py:276-324 | the summary over the global catalog and the device's reviews: counts partition the catalog and the percentage is in [0, 100] |
| Legacy.LegacyBuildDeviceItems | app/app.py:327-353 | one view item per catalog item, each the merge with the device's review |
| Legacy.LegacyCsvFilename | app/app.py:1248-1249 | the legacy export filename; stated by `LegacyFilenameKeepsOtherChars` and `LegacyFilenameExample` |
| Legacy.LegacyFilenameKeepsOtherChars | app/app.py:1248-1249 | the legacy file name keeps every character but the space, which becomes `_` |
| Legacy.LegacyFilenameExample | app/app.py:1248-1249 | "FW #1" gives `pfsense_benchmark_FW_#1.csv`, keeping the `#` |
| Benchmark.ControlMatch | scripts/parse_benchmark.py:59-65 | the control-id regex; stated by `ControlMatchSound`, `ControlMatchComplete` and `ControlMatchSplits` |
| Benchmark.IsHeader | scripts/parse_benchmark.py:38-47 | the header-row test; used by `LastHeaderIsLast` and `HeaderEmitsNothing` |
| Benchmark.IsControlRow | scripts/parse_benchmark.py:49-65 | the rows that yield an item; stated by `ControlRowsYieldItems` |
| Benchmark.RowItem | scripts/parse_benchmark.py:67-76 | the item one row yields; stated by `ItemsFromControlRows` |
| Benchmark.Step | scripts/parse_benchmark.py:28-77 | one loop iteration; computed by `ParseRow` |
| Benchmark.ParseRows | scripts/parse_benchmark.py:27-77 | the script's result after `n` rows; stated by `ItemsInRowOrder`, `ItemsFromControlRows` and `ControlRowsYieldItems`, computed by `ParseBenchmarkExcel` |
| Benchmark.LastHeader | scripts/parse_benchmark.py:38-47 | the current section; stated by `LastHeaderNone` and `LastHeaderIsLast` |
| Benchmark.SpaceEnd | scripts/parse_benchmark.py:59 | `\s*` and `\s+` stop at the first non-whitespace character, having read only whitespace |
| Benchmark.DottedEnd | scripts/parse_benchmark.py:59 | the greedy dotted-number scan stays inside the text |
| Benchmark.LineEnd | scripts/parse_benchmark.py:59 | `.*` stops at the first newline or the end |
| Benchmark.DottedEndSound | scripts/parse_benchmark.py:59 | what the scan reads is a dotted number `\d+(\.\d+)*` |
| Benchmark.DottedEndStops | scripts/parse_benchmark.py:59 | a dotted number followed by whitespace is read exactly to its end |
| Benchmark.ControlMatchSound | scripts/parse_benchmark.py:59-62 | a match is whitespace, a dotted number, whitespace, a newline-free title and the rest of the text |
| Benchmark.ControlMatchComplete | scripts/parse_benchmark.py:59-61 | every dotted number followed by whitespace matches, with that number as group 1 |
| Benchmark.ControlMatchSplits | scripts/parse_benchmark.py:59-62 | a number, one whitespace character and a clean title split back into the two |
| Benchmark.LoneIdDoesNotMatch | scripts/parse_benchmark.py:63-65 | a lone "1.1" does not match |
| Benchmark.ControlMatchExample | scripts/parse_benchmark.py:57-62 | "1.1 Ensure banner" gives id "1.1" and title "Ensure banner" |
| Benchmark.Pad | scripts/parse_benchmark.py:31-34 | a padded row has at least five cells |
| Benchmark.PadContents | scripts/parse_benchmark.py:31-34 | padding keeps the row and adds empty cells up to five |
| Benchmark.BlankRowIsNotControl | scripts/parse_benchmark.py:49-55 | a blank row is no header and fails the string test too |
| Benchmark.ParseRow | scripts/parse_benchmark.py:28-77 | one loop iteration does what `Step` says to the section and the items |
| Benchmark.ParseBenchmarkExcel | scripts/parse_benchmark.py:13-77 | the loop returns the items of `ParseRows` over all rows |
| Benchmark.ParseBenchmarkScript | parse_benchmark.py:13-63 | the root script's loop returns the same items |
| Benchmark.LastHeaderNone | scripts/parse_benchmark.py:25 | no section is found exactly when no earlier row is a header |
| Benchmark.LastHeaderIsLast | scripts/parse_benchmark.py:38-47 | a found section is the stripped col0 of the last header row before |
| Benchmark.SectionIsLastHeader | parse_benchmark.py:24-33 | the section carried through the loop is the latest header's, None before any |
| Benchmark.ItemsInRowOrder | scripts/parse_benchmark.py:27-77 | at most one item per row, row indices below the rows read and strictly increasing |
| Benchmark.ItemsFromControlRows | parse_benchmark.py:53-63 | each item is the item of a control row under the latest header before it |
| Benchmark.ControlRowsYieldItems | parse_benchmark.py:36-41 | a row has an item exactly when it is a control row: not a header, not blank, four strings |
| Benchmark.HeaderEmitsNothing | parse_benchmark.py:24-33 | a header row emits no item |

## Left out

- Python `\d`, `\w`, `int()` and `lower()` are modelled on ASCII. Unicode digits, letters and case folding are not modelled. `int()` accepts optional surrounding whitespace, a sign and decimal digits only; underscores and Unicode digits are not accepted.
- XML parsing and serialisation are parameters:
  - `ET.fromstring` and `parse_config_xml` are a `parse` function that may fail;
  - `ET.tostring(...).lower()` of `<installedpackages>` is a `serialize` function;
  - the trap-directive regexes over snmpd.conf text are an uninterpreted predicate.
  - The double-escaped pattern in `app/app.py` is one such predicate. It is not corrected.
- The SSH and SFTP transport is abstract:
  - `connect`, host keys, timeouts and UTF-8 decoding are not modelled;
  - the SFTP client is a file map, a connected flag, the paths whose `stat` fails and the paths whose read fails (with the error raised);
  - the legacy `exec_command` shell is a map from command to stdout or error.
- Flask routes, templates, redirects, HTTP status codes, authentication, `app/config.py`, logging and `print` are left out.
- SQLite connections, schema creation and migration, transactions and database errors are left out. The store is a class over maps.
- The CSV writer's quoting and the timestamp in the export file name are left out. Rows are sequences of strings, and the clock reading is a parameter.
- The `POST` branch of `device_item_detail` is left out; it is a plain `save_review` with the submitted values.
- Reports.ComputeDeviceSummary: `compliance_pct` is the unrounded ratio as a `real`. The source returns `round(compliance_pct, 1)` (app/reports.py:74), a float rounded to one decimal; float rounding is not modelled.
- Reports.Summarize: its `compliancePct` is the same unrounded `real` ratio; the one-decimal float rounding at app/reports.py:74 is not modelled.
- Reports.CompliancePct: states the exact ratio `(compliant + non_applicable) / denominator * 100` as a `real`, not the rounded float the summary returns.
- Legacy.LegacyComputeDeviceSummary: `compliance_pct` is the unrounded `real` ratio; the `round(compliance_pct, 1)` at app/app.py:321 is not modelled.
- Reports.ComputeDeviceSummary: the `status_counts` dictionary is represented by the four counts it holds.
- JSON items are records of optional fields. JSON list elements that are not objects are not modelled.
- Non-string JSON values: in the `Item` datatype every field other than `row_index` is a string, missing, or null. A JSON `status`, `section` or `comment` holding a number, boolean, list or object cannot be represented. In the source, a number or boolean `status` fails the `status not in status_counts` test (app/reports.py:43, app/app.py:295) and is counted as Not Reviewed. A list or object `status` is unhashable, so that same test raises `TypeError` and the summary fails. A non-string `section` or `comment` is written by the CSV export with `str()`. A truthy non-string `control_id` has no `strip()`, so building the control index at startup raises `AttributeError` (app/app_new.py:63-64, app/app.py:115).
- The `syslog_enable` value read at app/app.py:665 is never used by the code, so the model does not read it.
- pandas is not modelled. Reading the workbook is a sequence of rows of cells, with `Str`, `Empty` (None or NaN) and `Other` (numbers, dates). The row index is the position in the sheet, the default index `read_excel` gives. Printing and the JSON dump are left out.
- `read_benchmark.py` and `inspect_rows.py` only print, so they are left out.
