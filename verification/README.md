# vanyline: a model of the configuration store, the system-agent bootstrap and their algorithms

`dafny verify dfyconfig.toml` checks everything.

## What is modelled

**The layered configuration store** (`cfgstore`). Six kinds of named entities and a default agent live in two
layers, a global one and an optional workspace. Providers, model profiles and MCP servers are mappings inside
`config.yaml`; agents, toolsets and skills are one text file each. `FsStore.FsConfigStore` holds one `LayerDir` per
layer and rewrites it in place; each of its methods is proved against a function of the directory it works on
(`FsStore.Step`), and the results about whole runs are lemmas about that function.

- `Domain`, `Json`: entities, the calls of the store, JSON and YAML values, patches, and the YAML library as a codec.
- `Frontmatter`, `Files`: lines, trimming, the hand-written splitter, and the three file formats.
- `Entries`, `EntryPatch`, `Patches`: `config.yaml` entries, and both ways in which patches are applied.
- `FsStore`, `FsSteps`, `FsRuns`: the store, what one call does, and what every run and both layers keep.
- `MemStore`, `Refinement`: the in-memory store over vectors, and the relation between the two stores.
- `Meanings`, `Readings`: what each member of a patch and each key of a document stands for, said on the values.
- `FsMeanings`, `Results`: what comes back of an item that was created or updated, and what each call answers.
- `ConfigCheck`, `FsChecks`: the cross-reference checker, alone and on a store of files.
- `YamlLaws`: codecs that obey the assumed laws exist, and what the laws leave open.

**The system-agent bootstrap** (`app/src/system_agents.rs`). `SystemAgents` has the tables with their constraints and
one call as a machine whose steps are single database statements; any number of calls, aborts, user edits and
administrator edits interleave. `SystemAgentsSolo` has the call as it is written, in a class over the tables, and
what an undisturbed, repeated or interrupted call comes to.

**Algorithms**: the base64url decoder (`Base64Url`), UTF-8-safe truncation (`Utf8`, `Bounded`), the percent-encoder
(`GitPath`) and the conversation-reference resolver (`ConversationRefs`, `Decimal`). `Strings` has the string order
and the ordered iteration of a map; `Minimum` the first row of an ascending query.

## Assumptions and choices

- The YAML library is any pair of functions that meets `Json.YamlCodec.Lawful`: printing an object gives whole lines
  without a CR and without a line `---`, and parsing the text gives the object back. The splitter joins lines and so
  drops the final line feed; without it the text still parses, to the object or to the object whose last string has
  lost a line feed at its end. `YamlLaws` has one lawful codec that drops it and one that does not.
- What `config.yaml` holds is YAML, which has `.inf`, `-.inf` and `.nan`; an update takes the stored entry through
  JSON, where such a float becomes null.
- The members of a patch come in any order and the results do not depend on it; `serde_json` would hand them over
  sorted by key. Errors carry what identifies them, not their messages.
- The agents table has two unique indices, `(owner_id, name)` and `(owner_id, system_key)`, and foreign keys to
  the model profiles and to the users; a user may change only the model of a system row and may not delete it. Deleting
  a user takes its agents and profiles along. All calls in one history embed the same version and texts.
- A user's edit of a system row is two statements, with anything in between: one reads the row that the hook compares
  with, the other writes every column of that copy with the new model. The handler between them is in a crate that is
  not part of this model; no lock on the row is assumed. An edit around a rewrite therefore brings the outdated
  contents back, and `SystemAgents.StaysCurrentIff` says exactly when a row can be counted on to stay current.
- Reading YAML is as strict as the model: a null where a map is expected, or a number where text is, does not read. No
  call writes such a value.
- Where the code and its documentation differ the code is followed. The doc comment of `ensure_system_agents` speaks
  of rows with `system_version < SYSTEM_VERSION`; the code rewrites a row of any other version, newer ones included
  (`SystemAgentsSolo.AnyOtherVersionIsRewritten`).
- The frontmatter round trip is exact if and only if the trimmed text holds no CR LF, since `lines()` drops those CRs,
  and the last toolset or skill name of an agent does not end in a line feed.
- The empty reference finds a single conversation, and one more digit may turn it into an index: extending a prefix
  keeps the answer if and only if the prefix was not empty, or the extension is no index, or it is the index `1`.
- The in-memory updates are not all-or-nothing. A refused one leaves the store as it was if and only if it was refused
  before the loop, or every member in front of the first refused one, taken alone, changes nothing.

## Model

| member | source | states |
|---|---|---|
| FsStore.FsConfigStore.CreateEntry | cfgstore/src/fs_store.rs:483-506 | Creating a `config.yaml` entry changes the addressed layer exactly as specified, or returns the specified error and changes nothing, and the other layer never changes |
| FsStore.FsConfigStore.UpdateEntry | cfgstore/src/fs_store.rs:508-579 | The same for an update: the stored mapping goes through JSON, is patched member by member, goes back to YAML, is reread as the entity, and only then written |
| FsStore.FsConfigStore.DeleteEntry | cfgstore/src/fs_store.rs:581-593 | The same for a deletion |
| FsStore.FsConfigStore.SetDefaultAgent | cfgstore/src/fs_store.rs:807-815 | The same for the default agent |
| FsStore.FsConfigStore.CreateFile | cfgstore/src/fs_store.rs:817-837 | The same for creating an agent, toolset or skill file |
| FsStore.FsConfigStore.UpdateFile | cfgstore/src/fs_store.rs:929-1015 | The same for updating one: parse, patch in a loop, print, rewrite |
| FsStore.FsConfigStore.DeleteFile | cfgstore/src/fs_store.rs:873-884 | The same for deleting one, with the skill whose directory holds more than its `SKILL.md` |
| FsStore.FsConfigStore.MergedConfig | cfgstore/src/layers.rs:29-40 | The four loops that extend the global maps by those of the workspace yield the merged configuration, or the error of the layer that does not parse |
| FsStore.Extend | cfgstore/src/layers.rs:121-140 | Inserting the pairs one by one, each replacing what has its key, is the union in which the second map wins |
| FsStore.FsConfigStore.Merged | cfgstore/src/layers.rs:45-72 | The merge fails exactly when a `config.yaml` that it needs does not parse, and else holds under every name what the overlay of the layers has |
| FsStore.FsConfigStore.List | cfgstore/src/fs_store.rs:374-459 | A list call returns the specified listing of the merged view, in name order |
| FsMeanings.ListingIff | cfgstore/src/fs_store.rs:374-459 | A listing fails exactly when a `config.yaml` it needs does not parse or some value of the overlay does not read |
| FsMeanings.ListingIsSorted | cfgstore/src/layers.rs:121-160 | It is strictly in the order of the names |
| FsStore.FsConfigStore.LoadSkill | cfgstore/src/fs_store.rs:461-469 | Merging the files, splitting and trimming yields the trimmed body of the text that the overlay has under the name, or the error of an unknown skill or a missing fence |
| FsMeanings.LoadSkillIff | cfgstore/src/fs_store.rs:461-469 | The body of a skill is the middle between white space of what stands behind the second fence, whether the frontmatter parses or not; a missing skill and a missing fence are the two errors |
| FsStore.FsConfigStore.DefaultAgent | cfgstore/src/fs_store.rs:471-481 | Merging and looking up yields the default of the workspace where it has one, else the global one, and an error exactly when a layer does not parse or the value is no string |
| FsMeanings.DefaultAgentIff | cfgstore/src/fs_store.rs:471-481 | The default agent is n exactly when both layers parse and n is what the workspace has, or the global layer where the workspace has none; and none exactly when neither has one |
| FsSteps.CreateEffect | cfgstore/src/fs_store.rs:852-911 | A create succeeds only where nothing stood, then the slot holds the printed item, and every other slot and default is untouched |
| FsSteps.CreatedReads | cfgstore/src/fs_store.rs:595-618 | What a create wrote always reads; it reads as the item with its text trimmed, its temperature finite and its servers in order, unless the last name of an agent ends in a line feed, which may be dropped |
| FsMeanings.CreatedComesBack | cfgstore/src/fs_store.rs:852-911 | What a create wrote comes back field by field: text as its middle between white space without the CRs in front of line feeds, servers sorted with the last selection of each, all else as given, but for one line feed at the very end of a list of names |
| FsMeanings.CreatedSkillLoads | cfgstore/src/fs_store.rs:461-469 | The body that `load_skill` gives after a create is the middle `body[i..j]` of what was given, with white space only outside and at neither end, less the CRs in front of its line feeds |
| FsMeanings.CreatedItemIsFound | cfgstore/src/fs_store.rs:374-459 | On a readable store the listing then has the created item under its name, field by field as given, the prompt of an agent as such a middle |
| Domain.ValidNameIff | cfgstore/src/fs_store.rs:23-36 | A name is valid exactly when it is 1 to 64 letters, digits, dots, underscores and hyphens, starts with a letter or digit and has no two dots in a row; it is then one path component |
| FsSteps.UpdateReadsBack | cfgstore/src/fs_store.rs:1017-1097 | On something that reads, an update is accepted by a condition on name and patch alone; it then reads back as the old item with every recognised member in place, but for the same line feed |
| FsMeanings.UpdatedComesBack | cfgstore/src/fs_store.rs:929-1153 | An update is accepted exactly when some item follows the patch member by member and no header is anything but a string; that item then comes back, field by field |
| FsMeanings.UpdatedSkills | cfgstore/src/fs_store.rs:1069-1089 | After an accepted patch of an agent the skills that read back are all for null or `"auto"`, none exactly for `"none"`, and the names of the array otherwise |
| Results.CreateAnswers | cfgstore/src/fs_store.rs:483-506 | What a create answers: an invalid name, a configuration that does not parse, a name in use in that layer, or success, in this order |
| Results.UpdateAnswers | cfgstore/src/fs_store.rs:1017-1097 | What an update answers where the slot is free or reads, success being a condition on the patch alone |
| Results.DeleteAnswers | cfgstore/src/fs_store.rs:913-927 | What a deletion answers |
| Results.StoreAnswers | cfgstore/src/fs_store.rs:64-83 | A call on a layer answers as that layer does and leaves the other alone; on a workspace that is not there it is refused and changes nothing |
| FsSteps.DeleteEffect | cfgstore/src/fs_store.rs:913-927 | A deletion empties one slot and touches nothing else, whether it reports success or not |
| FsSteps.SetDefaultEffect | cfgstore/src/fs_store.rs:807-815 | Setting the default agent succeeds exactly when the configuration parses, writes that one default under any name, and leaves every slot; refused, it changes nothing |
| FsRuns.RunKeepsReadable | cfgstore/src/fs_store.rs:852-1153 | From a readable store, any sequence of accepted or refused calls on either layer leaves every entry and file parseable |
| FsRuns.ReadsSucceed | cfgstore/src/fs_store.rs:374-481 | On a readable store no list, default-agent or skill read fails with a configuration error, and a skill loads exactly when the overlay has it |
| FsRuns.RefusedChangesIff | cfgstore/src/fs_store.rs:541-578 | A refused call changes its layer if and only if it deletes a skill, present under a valid name, in a directory that holds more; it then returns an I/O error and the skill is gone |
| FsRuns.UpdateIgnoresOrder | cfgstore/src/fs_store.rs:929-1153 | Patches with the same members give the same result and the same layer, whatever their order |
| FsRuns.UpdatedMapping | cfgstore/src/fs_store.rs:508-579 | Key by key, the stored mapping after an accepted update: decided members set or removed, no other key added or dropped, and every other stored value kept if and only if it holds no float that is not finite |
| FsRuns.CallWritesInPlace | cfgstore/src/fs_store.rs:64-83 | A call changes no slot but the one of its kind and name, and no default but the agent |
| FsStore.MergedIsOverlay | cfgstore/src/layers.rs:121-140 | The merged view is pointwise the workspace slot where there is one, else the global slot, and it loads exactly when both configurations parse |
| FsRuns.LayersRunApart | cfgstore/src/fs_store.rs:64-73 | However calls on the two layers interleave, each layer ends as if it had run its own calls alone |
| FsRuns.ResultsRunApart | cfgstore/src/fs_store.rs:64-83 | And each call returns what it returns at its place in the run of its layer alone |
| FsRuns.InterleavingDoesNotShow | cfgstore/src/layers.rs:181-189 | Interleavings of the same two one-layer runs end in the same store and show the same listings |
| FsRuns.CreateThenDelete | cfgstore/src/fs_store.rs:483-506 | Deleting what was just created puts every slot and default of the layer back, and the very same layer if and only if the item is a file or `config.yaml` was there |
| FsRuns.ShadowThenRestore | cfgstore/src/layers.rs:121-140 | A workspace entry shadows the global one while it is there; deleting it restores the global entry and every listing, skill body and default of the merged view |
| FsRuns.SourceHoldsTheEntry | cfgstore/src/layers.rs:232-272 | The layer that provenance names holds exactly the value of the merged view |
| FsRuns.SourceIff | cfgstore/src/layers.rs:232-272 | Provenance names the workspace exactly when the workspace has the entry, also where a configuration does not load |
| EntryPatch.PatchEntry | cfgstore/src/fs_store.rs:541-578 | The patch loop refuses null on required keys and unknown type names, else produces the patched mapping, in any order of the members |
| EntryPatch.UntouchedKeyStaysIff | cfgstore/src/fs_store.rs:527-530 | A key that the patch does not decide, unrecognised ones included, keeps its stored value if and only if no float in it is infinite or not a number |
| EntryPatch.InfinityBecomesNull | cfgstore/src/fs_store.rs:527-530 | One such stored value, which every update turns into null |
| Json.YamlComesBackIff | cfgstore/src/fs_store.rs:527-530 | A YAML value comes back from JSON if and only if all its floats are finite |
| EntryPatch.UpdateReads | cfgstore/src/fs_store.rs:755-791 | On a readable entry a patch is accepted exactly when every recognised member has an acceptable value and headers are strings; it then reads as the patched entity, with a temperature that is not finite dropped |
| Entries.EntryRoundTrip | cfgstore/src/fs_store.rs:374-423 | A written entry reads back as itself, except that a temperature that is not finite is dropped |
| Readings.EntryReadsIff | cfgstore/src/fs_store.rs:116-155 | An entry reads as an item if and only if each key stands for the field it names, in both directions: enumerated words, absent optional keys, numbers, headers that are all strings |
| Readings.AgentReadsIff | cfgstore/src/fs_store.rs:187-217 | The same for the frontmatter of an agent: an absent mode is primary, absent skills are all skills, absent toolsets none, and only the model is required |
| Readings.ToolsetReadsIff | cfgstore/src/fs_store.rs:219-265 | The same for a toolset file, every part of which may be absent; the servers come sorted |
| Readings.SkillReadsIff | cfgstore/src/fs_store.rs:239-244 | The same for a skill file; a name in it does not matter |
| Readings.EntryPrintsIff | cfgstore/src/fs_store.rs:595-618 | What a written entry has under each key, and that it has no other: optional fields only where they are, empty options left out, and a temperature that is not finite as null |
| Readings.AgentPrintsIff | cfgstore/src/fs_store.rs:312-347 | The same for the frontmatter of an agent: mode, model and skills always, toolsets unless there are none |
| Readings.ToolsetPrintsIff | cfgstore/src/fs_store.rs:267-306 | The same for a toolset file: `tools` always, with `local` and `mcp` in it unless they are empty, each server with its last selection |
| Readings.SkillPrintsIff | cfgstore/src/fs_store.rs:360-370 | The same for a skill file: name and description |
| Patches.ApplyPatch | cfgstore/src/store.rs:756-840 | The field-by-field loop stops at the first bad member and otherwise sets every recognised member |
| Patches.PatchAllIsOverwrite | cfgstore/src/fs_store.rs:929-1015 | Patching in sequence succeeds exactly when every member is acceptable, and then equals setting all members at once |
| Patches.PatchIgnoresOrder | cfgstore/src/store.rs:408-477 | Success and the resulting entity do not depend on the order of the members |
| Meanings.SkillsValueIff | cfgstore/src/fs_store.rs:1069-1089 | The member `skills` is read as all skills exactly for null or `"auto"`, as none exactly for `"none"`, as names exactly for the array of those strings |
| Meanings.EnumValueIff | cfgstore/src/fs_store.rs:1046-1058 | Mode, provider type and transport are read as a value exactly for its word |
| Meanings.ListValueIff | cfgstore/src/fs_store.rs:1062-1068 | A list member is read as names exactly for the array of those strings in that order, or null for none |
| Meanings.McpValueIff | cfgstore/src/fs_store.rs:972-1005 | The member `mcp` is read as selections exactly when its items are objects that stand for them one by one, in order, absent or null tools being none |
| Meanings.NumberValueIff | cfgstore/src/store.rs:553-580 | A temperature is read as the float that equals the number, a token limit as the number itself |
| Meanings.HeadersValueIff | cfgstore/src/store.rs:687-705 | In memory the headers are exactly the members that are strings |
| Meanings.OptionsValueIff | cfgstore/src/store.rs:581-597 | Options are read as the very object that is given, or as none for null |
| Meanings.TextValueIff | cfgstore/src/fs_store.rs:1035-1045 | A text is read exactly from a string, an optional one from null too |
| Meanings.FollowsIff | cfgstore/src/fs_store.rs:929-1153 | What the patch makes of an item of any kind is the one item that follows it: each field that a member names stands for that member, every other field stays; a refused patch has none |
| Meanings.LoopFollows | cfgstore/src/store.rs:756-1048 | The member-by-member loop accepts a patch exactly when some item follows it, and ends on that item |
| Frontmatter.SplitFrontmatter | cfgstore/src/fs_store.rs:157-185 | The line loop finds the first closing fence and returns the joined lines on either side, or the error of a missing fence |
| Frontmatter.SplitMeaning | cfgstore/src/fs_store.rs:157-185 | A text splits at its first line, which has to be a fence, and the next fence behind it; each of the two errors has its exact condition |
| Frontmatter.SplitOfPrinted | cfgstore/src/fs_store.rs:308-357 | Splitting a printed file gives the printed document and the lines of the trimmed body, even if the body holds `---` lines or is empty |
| Frontmatter.BodyRoundTrip | cfgstore/src/fs_store.rs:461-469 | The trimmed body comes back unchanged if and only if it holds no CR LF, and what comes back is stable |
| Frontmatter.TrimIsMiddle | cfgstore/src/fs_store.rs:360-370 | Trimming leaves `s[i..j]` with nothing but the 25 white-space characters outside and none at either end, however `i` and `j` are chosen |
| Frontmatter.ReadBackIff | cfgstore/src/fs_store.rs:461-469 | What a reader of a printed file gets, exactly and for every text: that middle, without the CRs in front of its line feeds |
| Files.AgentRoundTrip | cfgstore/src/fs_store.rs:204-218 | A printed agent always parses. When its last toolset or skill name ends in no line feed, every field comes back with the prompt trimmed, and a second print gives the same file, if and only if the trimmed prompt has no CR LF |
| YamlLaws.RoundTripsAlwaysIff | cfgstore/src/fs_store.rs:308-357 | An agent comes back whole under every lawful codec if and only if its trimmed prompt has no CR LF and its last toolset or skill name ends in no line feed |
| Files.SkillRoundTrip | cfgstore/src/fs_store.rs:360-370 | The same for a skill and its body; the description comes back in every case |
| Files.McpToJson | cfgstore/src/fs_store.rs:267-299 | The loop that fills the map of servers keeps the last selection of each server |
| Files.ToolsetToJson | cfgstore/src/fs_store.rs:267-306 | The printer omits what is empty and yields the specified document |
| Files.NormalMcpMeaning | cfgstore/src/fs_store.rs:246-265 | The normal form of a server list is strictly sorted, and pairs each server with its last selection |
| Files.NormalMcpIdentity | cfgstore/src/fs_store.rs:246-265 | A server list is its own normal form if and only if it is strictly sorted |
| Files.ToolsetRoundTrip | cfgstore/src/fs_store.rs:246-306 | Parse after print yields the toolset with its servers in normal form and all else equal |
| Files.ToolsetPrintIsStable | cfgstore/src/fs_store.rs:267-306 | Print, parse, print is the same as print |
| MemStore.InMemoryConfigStore.Create | cfgstore/src/store.rs:391-406 | A create pushes the item, and its body for a skill, exactly when name and uniqueness allow it |
| MemStore.InMemoryConfigStore.Update | cfgstore/src/store.rs:408-477 | An update edits the found item in place, keeping the members set before a refused one |
| MemStore.InMemoryConfigStore.Delete | cfgstore/src/store.rs:1050-1068 | A deletion removes the item, and the body for a skill |
| MemStore.InMemoryConfigStore.SetDefaultAgent | cfgstore/src/store.rs:734-740 | The default agent is replaced, whatever the name, and nothing else changes |
| MemStore.InMemoryConfigStore.Get | cfgstore/src/store.rs:53-70 | The two searches return the item of the name exactly when one item alone has it, report it unknown exactly when none has it, and report a duplicate exactly when two have it |
| MemStore.StepKeepsInvariant | cfgstore/src/store.rs:969-1048 | Every call, including an update that fails half-way, keeps names unique and skill bodies in step with the listed skills |
| MemStore.RunsFromEmpty | cfgstore/src/store.rs:391-1068 | After any run from empty a lookup never reports a duplicate, and a skill loads exactly when it is listed |
| MemStore.ListsInOrderOfCreation | cfgstore/src/store.rs:391-1068 | A listing is in the order of creation: a new name comes last, an updated one keeps its place, a deleted one leaves its |
| FsMeanings.MemFollows | cfgstore/src/store.rs:871-956 | An update in memory succeeds exactly when some item follows the patch; the store then holds that item |
| MemStore.ResolvesUnique | cfgstore/src/store.rs:53-70 | On unique names the resolution finds an item exactly when one has the name |
| MemStore.RefusedUpdateKeepsIff | cfgstore/src/store.rs:408-477 | A refused in-memory update leaves the store as it was if and only if it was refused before the loop, or every member in front of the first refused one leaves the item as it is |
| MemStore.FailedUpdateStays | cfgstore/src/store.rs:408-477 | One update that does not: the in-memory store is not all-or-nothing |
| Refinement.StepRefines | cfgstore/src/store.rs:391-1068 | On related stores the file store accepts exactly the calls that the in-memory store accepts and that bring no header but strings; accepted calls keep the relation |
| Refinement.RunRefines | cfgstore/src/fs_store.rs:481-1153 | From empty, the in-memory store fed the accepted calls accepts each of them and stays related |
| Refinement.RunsAgree | cfgstore/src/fs_store.rs:374-481 | After such runs both stores list the same name-to-value maps, up to trimmed prompts, ordered servers and finite temperatures, load the same trimmed skill bodies, and have the same default agent |
| FsMeanings.RunsComeBack | cfgstore/src/store.rs:391-1068 | And what the files read as is what comes back of the item in memory, field by field |
| Results.AnswersAgreeIff | cfgstore/src/store.rs:998-1012 | On related stores a call is answered alike, errors included, if and only if it does not bring a header that only the file store refuses, nor patches a missing skill with something that is no object |
| Refinement.OddHeadersPart | cfgstore/src/store.rs:636-713 | The converse fails: one patch that the in-memory store accepts and the file store refuses |
| Refinement.ListingFinds | cfgstore/src/fs_store.rs:374-459 | A successful listing has unique names, and finds under each name what the overlay holds there |
| Refinement.ResolvedIsOverlay | cfgstore/src/store.rs:145-167 | On a readable file store a lookup by name gives the entity of the overlay, or says it is unknown, and never that it is there twice |
| ConfigCheck.CheckDuplicateNames | cli/src/config_check.rs:116-129 | The loop with its set of seen names reports each later item of a name once |
| ConfigCheck.CheckConfig | cli/src/config_check.rs:13-114 | The whole check yields the read errors, then the duplicates, then the dangling references in traversal order |
| ConfigCheck.DuplicateCount | cli/src/config_check.rs:116-129 | There are as many duplicate reports of a kind as items exceed distinct names |
| ConfigCheck.DuplicatesOneToOne | cli/src/config_check.rs:116-129 | Duplicate reports match the items that have the name of an earlier item one to one, in their order, and each names the item that it is about |
| ConfigCheck.ReportInBlocks | cli/src/config_check.rs:13-114 | A report is the errors of the seven reads in order, such duplicate reports for each of the six kinds in order, and the dangling references |
| ConfigCheck.DanglingOneToOne | cli/src/config_check.rs:58-112 | Dangling-reference reports match the unresolved references one to one, in traversal order |
| ConfigCheck.UnknownReportedIff | cli/src/config_check.rs:58-112 | A reference is reported as unknown if and only if an item of the configuration makes it under its own name and nothing listed has the name |
| ConfigCheck.ReferencesTakeTurns | cli/src/config_check.rs:58-112 | References of models come before those of toolsets, agents and the default agent |
| ConfigCheck.AgentRefsInOrder | cli/src/config_check.rs:78-104 | Of an agent first the model, then the toolsets, then the skills it names, in their order |
| ConfigCheck.ReferencesResolveIff | cli/src/config_check.rs:58-112 | No reference is reported exactly when every model, toolset, agent and default reference names something listed |
| ConfigCheck.EmptyReportIff | cli/src/config_check.rs:13-114 | The report is empty if and only if all reads succeeded, names are distinct within each kind and every reference resolves |
| FsChecks.OnlyDanglingIsReported | cli/src/config_check.rs:13-114 | On a readable store of files nothing but dangling references can be reported |
| YamlLaws.LawfulCodecExists | cfgstore/src/fs_store.rs:312-357 | The laws assumed of the YAML library can be met, so nothing here is proved of an empty set of codecs |
| SystemAgents.SystemAgentFor | app/src/system_agents.rs:133-139 | A context kind finds a key exactly when it is the kind of that key |
| SystemAgents.CallStepIsSafe | app/src/system_agents.rs:157-222 | One statement of a call, between whatever others do, keeps the constraints, every system row with its owner, key and name, and what the call relies on |
| SystemAgents.EventIsSafe | app/src/system_agents.rs:157-301 | So does any event: a statement, an abort, the read or the write of an edit, the deletion of a user with all its rows. Contents and version of a system row change only when a call rewrites it, or to what an edit had read; its model only to what an edit sets |
| SystemAgents.OneRowPerKey | app/src/system_agents.rs:165-197 | However calls and edits interleave, an owner never has two rows of one system key |
| SystemAgents.ReturnedRowsStay | app/src/system_agents.rs:157-222 | A call that returned gave one row per key in key order, and as long as its owner is there they are there with that owner, key and name; each stays current if and only if it is, and no edit under way has read an outdated copy |
| SystemAgents.StaysCurrentIff | app/src/db/entities/agents.rs:101-150 | A system row is current in everything that can follow if and only if it is current and every copy of it that an edit has read and not yet written is |
| SystemAgents.TruthfulStays | app/src/system_agents.rs:200-206 | A row whose version tells the truth about its contents goes on doing so: whenever it says it is current, description, mode, toolsets, skills and prompt are those of its key in the build |
| SystemAgents.EditUndoesRewrite | app/src/db/entities/agents.rs:101-150 | An edit that read the row before a rewrite and writes after it brings the old version and contents back with the new model, and the call that rewrote the row can even return it so |
| SystemAgentsSolo.LaterCallRepairs | app/src/system_agents.rs:192-219 | After any history, a call that runs undisturbed and succeeds makes such a row current again, column by column where it was not, and keeps its model |
| SystemAgents.ReturnIsFinal | app/src/system_agents.rs:157-222 | No later event takes the answer of a call back |
| SystemAgents.ModelEditsAreNeverLost | app/src/system_agents.rs:194-219 | In every history a system row is there if and only if its owner is, and its model is what a user last wrote, wherever the read and the write of that edit fell between the statements of the calls |
| SystemAgentsSolo.Database.ResolveOrBootstrapProfile | app/src/system_agents.rs:229-301 | The profile resolution is the first statements of the machine; it returns the profile of the owner that no other of its profiles comes before, or inserts the default one, and refuses for want of a model exactly when the owner has none and no default can be used |
| SystemAgentsSolo.Database.EnsureKey | app/src/system_agents.rs:165-219 | One turn of the loop over keys is the statements of the machine on that key |
| SystemAgentsSolo.Database.EnsureSystemAgents | app/src/system_agents.rs:157-222 | The loop as written leaves the tables and the answer of the machine running alone |
| SystemAgentsSolo.RerunConverges | app/src/system_agents.rs:157-222 | Cut off after any statement and called again, the bootstrap reaches the tables and the answer of an uninterrupted call |
| SystemAgentsSolo.RepeatChangesNothing | app/src/system_agents.rs:157-222 | A second call changes no table and answers as the first |
| SystemAgentsSolo.CallOnlyBootstraps | app/src/system_agents.rs:157-222 | Whatever its answer, a call only inserts missing system rows and the default profile and refreshes outdated system rows of its owner; on success it answers with four current rows in key order |
| SystemAgentsSolo.WrittenRow | app/src/system_agents.rs:173-205 | Column by column, every row that a call inserted or changed: owner, key, version, description, prompt, `"primary"`, empty toolsets and skills of that key; a rewritten row had another version and keeps name and model, a new one is `system-` and its key and has the first profile of the owner |
| SystemAgentsSolo.AnsweredRows | app/src/system_agents.rs:157-222 | A successful answer is the rows of `config`, `home`, `project` and `sandbox` in this order, with those columns where a row was missing or outdated |
| SystemAgentsSolo.WrittenProfile | app/src/system_agents.rs:244-301 | A call changes the profiles only for an owner without one, by adding the profile `default` with provider, model and options of the setting |
| SystemAgents.FoundProfile | app/src/system_agents.rs:235-243 | The query finds a profile exactly when it is of the owner and no other of the owner has a smaller id, and none exactly when the owner has none |
| SystemAgents.DefaultIsInserted | app/src/system_agents.rs:285-301 | Inserting the default profile succeeds exactly when its provider and owner are there at that moment and the owner has no profile of that name; else the call fails and no table changes |
| SystemAgents.ParsedIff | app/src/system_agents.rs:256-272 | The setting is a default exactly when it is an object with a 32-bit provider and a model; absent options are an empty object |
| SystemAgentsSolo.ExistingRowsAreAnswered | app/src/system_agents.rs:194-219 | A row that existed keeps its id, name and model, and is the one the answer names for its key |
| SystemAgentsSolo.AnyOtherVersionIsRewritten | app/src/system_agents.rs:192-219 | A successful call rewrites a row if and only if its version is another than the embedded one, and leaves a current row as it is |
| SystemAgentsSolo.SucceedsIff | app/src/system_agents.rs:229-301 | A call fails for want of a model exactly when no profile has the owner and the setting names no existing provider, and then no table changes; otherwise it succeeds exactly when the owner exists and, for each of the four keys, has its row or no row of that name |
| Base64Url.Decode | cli/src/chat.rs:396-432 | The loop over chunks decodes the stripped input, and no checked conversion in it fails |
| Base64Url.RoundTrip | cli/src/chat.rs:396-432 | Every octet string comes back from its encoding (section 5 of RFC 4648), with any number of `=` behind it |
| Base64Url.SymbolIs | cli/src/chat.rs:396-432 | The symbols are the URL-safe alphabet of section 5 of RFC 4648 |
| Base64Url.DecodesIff | cli/src/chat.rs:396-432 | Decoding succeeds exactly on the alphabet with a length that is not 1 modulo 4, and gives floor(6n/8) octets |
| Base64Url.ReencodesIff | cli/src/chat.rs:396-432 | Re-encoding gives the input back if and only if the spare low bits are zero (section 3.5 of RFC 4648) |
| Base64Url.ReencodedIs | cli/src/chat.rs:396-432 | Re-encoding any text that decodes gives it back with those bits cleared, so decoding ignores them and nothing else |
| Base64Url.StripPaddingIs | cli/src/chat.rs:396-402 | All `=` at the end are taken off, and nothing else |
| Bounded.BoundedText | app/src/mcp_domain.rs:131-146 | The index-walking method computes the specified truncation |
| Bounded.BoundIsSafe | app/src/mcp_domain.rs:131-146 | For well-formed UTF-8 the result is well-formed (section 3 of RFC 3629), at most 8192 octets, stable under a second truncation, and the text itself exactly when that fits |
| Bounded.CutKeepsHalf | app/src/mcp_domain.rs:135-144 | A cut text is a prefix plus the marker; the boundary walk gives up at most 3 octets, and the prefix keeps at least half of the body it leaves and ends there or at a line break |
| Bounded.CutIsLastBreak | app/src/mcp_domain.rs:135-144 | The cut is the last line break past half of the body, and the end of the body exactly when there is none |
| Bounded.MarkerIs | app/src/mcp_domain.rs:119-123 | The marker is the UTF-8 encoding of the notice |
| Bounded.RenderItems | app/src/mcp_domain.rs:262-266 | The rendered list is the counted header and one line per item |
| Bounded.RenderedIs | app/src/mcp_domain.rs:262-266 | Octet by octet: the title, the decimal count of the items in parentheses, a colon, and each item behind a line break |
| Bounded.WholeItemsSurvive | app/src/mcp_domain.rs:136-144 | When a line break lies past half of the body, the bounded list is the header and the first k items uncut, and k is as large as the body allows |
| Utf8.ValidSplit | app/src/mcp_domain.rs:136-144 | Cutting well-formed text at a boundary leaves two well-formed texts |
| Utf8.ValidIff | app/src/mcp_domain.rs:136-144 | The model of well-formed text is exact: octets are well-formed if and only if they encode a sequence of Unicode scalar values (section 3 of RFC 3629) |
| GitPath.DecodeUndoesEncode | lib/src/lib.rs:22-33 | A percent-decoder (section 2.1 of RFC 3986) undoes the encoding of every octet string |
| GitPath.EncodeIsInjective | lib/src/lib.rs:30-33 | Different paths have different encodings |
| GitPath.EncodeDistributes | lib/src/lib.rs:30-33 | Encoding distributes over concatenation |
| GitPath.EncodedRange | lib/src/lib.rs:22-28 | The encoding holds octets 0x21 to 0x7E only |
| GitPath.UnchangedIff | lib/src/lib.rs:22-33 | A path is its own encoding exactly when all its octets are 0x21 to 0x7E and none is `%` |
| GitPath.EncodedOctet | lib/src/lib.rs:22-33 | Wherever it stands, such an octet stays and any other becomes `%` and its two upper-case hexadecimal digits |
| GitPath.EncodeKeepsSegments | lib/src/lib.rs:26-33 | The number and order of the `/`-separated segments stay, each encoded in place |
| GitPath.SegmentsAre | lib/src/lib.rs:26-33 | The segments hold no `/`, and with one between them they are the path |
| ConversationRefs.ListConversations | cli/src/store.rs:7-24 | The list is sorted and holds exactly the conversations that load |
| ConversationRefs.ListingIgnoresDirectoryOrder | cli/src/store.rs:7-24 | Whatever order the directory is read in, the list and so the printed indices are the same |
| ConversationRefs.LoadedCounts | cli/src/store.rs:7-24 | A conversation is listed as often as a file of it loads |
| Strings.LeqMeaning | cli/src/store.rs:18-22 | The order of the list is decided by the first character in which two texts differ |
| ConversationRefs.PrintedIndexResolves | cli/src/main.rs:279-289 | The printed index of a conversation resolves to it |
| ConversationRefs.ResolvedIndexWasPrinted | cli/src/store.rs:91-104 | An index that resolves is the printed index of the conversation found |
| ConversationRefs.FullTextResolves | cli/src/store.rs:106-121 | The full text of an identifier, once lowered, resolves to its conversation |
| ConversationRefs.AnyCaseResolves | cli/src/store.rs:106-121 | So does that text with each letter in either case |
| ConversationRefs.ResolvesIff | cli/src/store.rs:91-121 | Every answer: a printed number gives the conversation at that place or says that there is none and how many there are; anything else says that none matches, finds the only match, or counts the several, whatever the cases of its letters |
| ConversationRefs.IsIndexIff | cli/src/store.rs:91-97 | A reference is an index exactly when it is how some number of at most 64 bits prints |
| ConversationRefs.PrefixResolvesIff | cli/src/store.rs:106-121 | In prefix mode the answer is a conversation exactly when it alone matches |
| ConversationRefs.ExtendingKeepsIff | cli/src/store.rs:91-121 | Extending a successful prefix along the identifier keeps the answer if and only if the prefix was not empty, or the extension is no index, or it is the index 1 |
| ConversationRefs.EmptyReferenceIsNotKept | cli/src/store.rs:91-121 | An extension of the empty prefix that loses the answer |

## Left out

- I/O failures, torn writes, file modes, symbolic links and case-insensitive file systems: a read or write of one file is atomic.
- Concurrent writers of the file store and interleavings inside the in-memory store: the claims hold for sequential runs.
- The text of `config.yaml`: it is modelled as the values it parses to, or as malformed. YAML tags and keys that are not strings are not values here.
- Directory listings: a layer maps each name to a text, so stray files, extensions and sub-directories are not part of this model.
- Rounding of large integers to floats, and two spellings of one float.
- Error messages, and the details that are only text inside them.
- Unicode lower-casing of references: only ASCII letters change case here, and no other letter lowers to a hexadecimal digit or hyphen.
- SeaORM, Postgres and transactions: gaps that failed inserts leave in identifiers, and temperature and token limits of a profile.
- An edit or a deletion of an ordinary row is one step: none reads a row before another edit gives it a system key and writes after that.
- Users that sign up during a history: one who has not yet counts as one without rows.
- Bootstraps of different versions running at the same time: a history has one build.
- The texts of the four prompts and descriptions: they are parameters.
- Temporary servers, tokens and the rest of the turn context of system agents, MCP dispatch, HTTP routers, OIDC, the Kubernetes client and health relay: plumbing.
- `PgConfigStore`, `naming.rs`, workspace discovery and serde shapes: only easy members.
- Command-line definitions, chat sinks, terminal output and the front end.
