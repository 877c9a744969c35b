# Agent editor — a verified Dafny model

This project models the core of a Next.js editor for conversational "agent" configurations. An
agent holds global rules, global policies, a glossary, a response style and a list of sub-agents.
A sub-agent holds a workflow, tools, rules, policies and outcomes. An outcome may name the
sub-agent that comes next, and those links make the sub-agents into a graph. The model covers:

- the entity model and its closed enumerations (`types.dfy`);
- the canonical YAML export, up to the document tree handed to the YAML dumper (`serializer.dfy`);
- the graph resolver shared by the two tree views (`graph.dfy`), the agent tree's child map and
  referenced-id collection (`agent_tree.dfy`), and the sidebar tree (`sidebar.dfy`);
- workflow-step editing, including the display's in-place sort and renumbering (`sub_agent_editor.dfy`);
- the file-backed agent store (`storage.dfy`) and the editor page's state (`page.dfy`);
- the list editors for tools, rules, policies, outcomes and glossary terms (`tool_editor.dfy`,
  `rule_editor.dfy`, `outcome_editor.dfy`, `global_settings.dfy`);
- generic sequence helpers: filter, first-match search, replace, splice, insert and
  order-preserving de-duplication (`seqs.dfy`, with `wrappers.dfy` for `Option`/`Result`).

Each source file keeps its own form in the model:

- Pure code becomes functions and lemmas.
- Loops become methods with invariants: `buildTree`'s nested `forEach`, the referenced-id
  collection, the glossary `reduce`, the display sort and the renumbering `forEach`.
- The store and the page are classes whose fields their methods update.
- JavaScript's `Array.prototype.sort` on the workflow is an insertion sort on an `array`. It
  sorts in place and is stable, as the language guarantees.
- Every `[...xs]` copy followed by an indexed write or a `splice` is a method over a fresh local
  array.

Where the JavaScript semantics matter, the model states them:

- Truthiness: an empty `nextSubAgentId` or `condition` counts as absent.
- `find` returns the first match.
- An out-of-range `splice` changes nothing.
- An object used as a map keeps first-insertion key order, and a later write to the same key
  wins.

## Model

| member | source | states |
|---|---|---|
| Types.ParseToolType | lib/types.ts:12 | a tool type parses exactly from `lookup`/`action`, and parsing inverts the name |
| Types.ParseParamType | lib/types.ts:20 | a parameter type parses exactly from the four names, inverse of the name |
| Types.ParseScope | lib/types.ts:29 | a scope parses exactly from `always`/`conditional`, inverse of the name |
| Types.ParseEnforcement | lib/types.ts:37 | an enforcement parses exactly from `strict`/`advisory`, inverse of the name |
| Types.ParseConditionType | lib/types.ts:41 | a condition type parses exactly from `observation`/`fact`, inverse of the name |
| Types.ParseTone | lib/types.ts:77 | a tone parses exactly from its three names, inverse of the name |
| Types.ParseVerbosity | lib/types.ts:78 | a verbosity parses exactly from its three names, inverse of the name |
| Seqs.FilterMembership | components/ToolEditor.tsx:48 | an element is in `filter(p, s)` iff it is in `s` and satisfies `p` |
| Seqs.FilterIsSubsequence | components/AgentTree.tsx:50-52 | a filter result keeps the original relative order (it is a subsequence) |
| Seqs.FilterMultiset | lib/storage.ts:62 | a filter keeps every copy of a passing element and no copy of a failing one |
| Seqs.FilterAppend | components/AgentTree.tsx:50-52 | filtering distributes over concatenation |
| Seqs.FindIndex | lib/storage.ts:49 | `findIndex` gives the first index satisfying the predicate, or none when no element does |
| Seqs.ReplaceAt | components/ToolEditor.tsx:246-250 | copy-then-assign replaces index `i` only; length and all other entries are unchanged |
| Seqs.RemoveAt | components/ToolEditor.tsx:252-256 | copy-then-`splice(i, 1)` drops index `i` and keeps the rest in order; an out-of-range index changes nothing |
| Seqs.InsertAt | components/SubAgentEditor.tsx:50-51 | `splice(i, 0, x)` puts `x` at `i` with the prefix and suffix intact |
| Seqs.ReplaceThenRestore | components/ToolEditor.tsx:246-250 | writing back the old value undoes a replacement |
| Seqs.RemoveMultiset | components/ToolEditor.tsx:252-256 | a splice removes exactly one occurrence of the removed element |
| Seqs.DedupProperties | components/AgentTree.tsx:29-31 | de-duplication yields no repeats and keeps exactly the same members |
| Graph.OutTargetsMembership | components/Sidebar.tsx:27-29 | an id is among a node's targets iff some outcome links to it with a non-empty id |
| Graph.OutTargetsIsFilterMap | components/Sidebar.tsx:27-29 | the targets are, position by position, the ids of the outcomes that name a target (`filter` then `map`) |
| Graph.ReferencedMembership | components/AgentTree.tsx:43-48 | an id is referenced iff some outcome of some sub-agent names it (non-empty) |
| Graph.FindById | components/AgentTree.tsx:57 | `find` by id succeeds iff some sub-agent has the id, and returns the first such |
| Graph.ResolveChildren | components/AgentTree.tsx:55-58 | resolved children are sub-agents found by id, never more than the ids |
| Graph.ResolvedIds | components/AgentTree.tsx:55-58 | the resolved children's ids are exactly the child ids that resolve, in order (dangling ids dropped) |
| Graph.ResolvesSome | components/Sidebar.tsx:31-35 | some child is resolved iff at least one child id matches a sub-agent |
| Graph.EntryPoints | components/AgentTree.tsx:50-52 | entry points are the order-preserving filter of root-or-unreferenced sub-agents: each passing sub-agent kept with its multiplicity, the others dropped |
| Graph.RootIsEntryPoint | components/AgentTree.tsx:50-52 | the root sub-agent, when it exists, is an entry point even if referenced |
| Graph.EntryPointsWithoutRoot | components/Sidebar.tsx:96-101 | without a resolvable root, entry points are exactly the unreferenced sub-agents |
| Graph.RenderGuarded | components/AgentTree.tsx:54-103 | each node renders its resolved children in order, one level deeper; a child not yet on the path is expanded, one already on it becomes a leaf (a guard the components lack) |
| Graph.GuardedHeight | components/AgentTree.tsx:96-100 | with a path guard, a rendered tree is never taller than the number of ids plus one |
| Graph.RenderUnguarded | components/Sidebar.tsx:68-81 | unguarded rendering renders every resolved child at level + 1 with no cycle check |
| Graph.GuardedSplit | components/AgentTree.tsx:96-100 | the `k`th child is a bare leaf one level deeper when its id is already on the path (or is the node itself), and is expanded in full otherwise |
| Graph.GuardedAgreesUnguarded | components/AgentTree.tsx:96-100 | on a child graph ranked so every child sits strictly below its parent (no cycle), the guarded rendering equals the unguarded one given fuel at least the number of ids not yet on the path |
| AgentTree.ChildMapIsDedupedTargets | components/AgentTree.tsx:22-38 | the child map holds a key iff it has a target, and its list is the de-duplicated targets in first-occurrence order |
| AgentTree.EdgesMembership | components/AgentTree.tsx:25-35 | a (parent, target) edge exists iff some sub-agent with that id has an outcome linking to the target |
| AgentTree.ChildListsDistinct | components/AgentTree.tsx:29 | no child list holds an id twice |
| AgentTree.ChildMapMembership | components/AgentTree.tsx:25-35 | a target is in `childMap[id]` iff an outcome of a sub-agent with that id names it |
| AgentTree.BuildChildMap | components/AgentTree.tsx:22-38 | the nested loops build exactly the de-duplicated child map: non-empty, repeat-free lists, membership iff a link exists |
| AgentTree.CollectReferencedIds | components/AgentTree.tsx:43-48 | the loop collects exactly the set of non-empty `nextSubAgentId`s |
| AgentTree.BadgeOf | components/AgentTree.tsx:61 | a node gets the delete action iff it is not the root, the entry badge iff it is |
| AgentTree.TreeView | components/AgentTree.tsx:120 | one tree per root node, each at level 0 |
| AgentTree.TreeViewAsWritten | components/AgentTree.tsx:54-120 | on an agent whose outcome graph has no cycle, every tree equals the unguarded `renderSubAgent` rendering |
| AgentTree.ChildListIsDedupedOutTargets | components/AgentTree.tsx:22-38 | with unique ids, a node's child list is its de-duplicated outcome targets |
| Sidebar.ChildIds | components/Sidebar.tsx:27-29 | child ids are, in outcome order and with repeats, the targets of the outcomes that name one: same length as that filter and equal to its ids position by position |
| Sidebar.RepeatedTargetKept | components/Sidebar.tsx:27-29 | two outcomes naming the same target give that id twice (no de-duplication) |
| Sidebar.HasChildren | components/Sidebar.tsx:35 | `hasChildren` holds iff some child id resolves |
| Sidebar.TopLevel | components/Sidebar.tsx:93 | the root alone when it resolves; otherwise the unreferenced sub-agents |
| Sidebar.SidebarTree | components/Sidebar.tsx:132-151 | one tree per top-level item, each at level 0 |
| Sidebar.SidebarAsWritten | components/Sidebar.tsx:68-81 | on an agent whose outcome graph has no cycle, every top-level tree equals the unguarded `TreeItem` rendering |
| Sidebar.TotalToolsAppend | components/Sidebar.tsx:163 | the total-tools sum is additive over concatenation |
| Sidebar.TotalToolsReplace | components/Sidebar.tsx:163 | replacing one sub-agent changes the total by the difference in its tool count |
| Sidebar.UnguardedTwoCycle | components/Sidebar.tsx:70-78 | on two nodes leading to each other, unguarded rendering is as tall as any fuel allows |
| Sidebar.UnguardedCycleNeverBottomsOut | components/Sidebar.tsx:70-78 | the concrete two-sub-agent cycle renders to height fuel + 1 for every fuel |
| Sidebar.GuardedCycleIsFinite | components/AgentTree.tsx:98 | the guarded rendering of the same cycle stops at height 3 |
| SubAgentEditor.SortSorted | components/SubAgentEditor.tsx:140-141 | the display order ascends by `order` and is a permutation of the stored steps |
| SubAgentEditor.SortIsStable | components/SubAgentEditor.tsx:140-141 | steps with equal `order` keep their stored relative order |
| SubAgentEditor.SortedUnchanged | components/SubAgentEditor.tsx:140-141 | an already sorted workflow is left as it is |
| SubAgentEditor.SortIdempotent | components/SubAgentEditor.tsx:140-141 | sorting twice is sorting once |
| SubAgentEditor.DenseShowsAsStored | components/SubAgentEditor.tsx:140-142 | when every order equals position + 1, the display index is the stored index |
| SubAgentEditor.InsertFrom | components/SubAgentEditor.tsx:140-141 | one insertion step moves `a[i]` into the already sorted suffix, prefix untouched |
| SubAgentEditor.SortInPlace | components/SubAgentEditor.tsx:140-141 | the in-place sort leaves the array equal to the stable sort of its old contents |
| SubAgentEditor.Renumbered | components/SubAgentEditor.tsx:39-41 | renumbering keeps ids and descriptions and makes every order equal position + 1 |
| SubAgentEditor.Renumber | components/SubAgentEditor.tsx:54-56 | the `forEach` renumbers the array in place to the renumbered sequence |
| SubAgentEditor.RenumberedShowsAsStored | components/SubAgentEditor.tsx:54-56 | a renumbered workflow displays in stored order |
| SubAgentEditor.AddWorkflowStep | components/SubAgentEditor.tsx:19-27 | appends one empty step with order = previous length + 1 (missing workflow read as empty); other fields kept |
| SubAgentEditor.AddKeepsDense | components/SubAgentEditor.tsx:19-27 | adding a step keeps a dense numbering dense |
| SubAgentEditor.UpdateWorkflowStep | components/SubAgentEditor.tsx:29-33 | replaces only step `i`; length and other steps unchanged |
| SubAgentEditor.DeleteWorkflowStep | components/SubAgentEditor.tsx:35-43 | removes step `i` (no change when out of range) and renumbers the rest in order |
| SubAgentEditor.MoveWorkflowStep | components/SubAgentEditor.tsx:45-58 | no change when the neighbour is out of range; otherwise swaps with the neighbour and renumbers |
| SubAgentEditor.MoveUpThenDown | components/SubAgentEditor.tsx:45-58 | on a densely numbered workflow, moving a step up and then down restores it |
| Storage.Ensured | lib/storage.ts:19-34 | a missing, unparseable or empty-array file becomes `[seed]`; a non-empty array or a non-array is left alone |
| Storage.EnsuredShape | lib/storage.ts:19-34 | after seeding, the file is a non-empty array (or a non-array), and seeding again changes nothing |
| Storage.Loaded | lib/storage.ts:36-40 | reading succeeds iff the file holds an array, and yields that array |
| Storage.FindAgent | lib/storage.ts:42-45 | `getAgent` finds the first agent with the id, or none |
| Storage.Upsert | lib/storage.ts:47-58 | an existing id is replaced in place at its first position (others unchanged); a new id is appended |
| Storage.SaveThenFind | lib/storage.ts:47-58 | after saving, looking the id up gives the saved agent |
| Storage.SaveIdempotent | lib/storage.ts:47-58 | saving the same agent twice equals saving it once |
| Storage.RemoveById | lib/storage.ts:60-64 | deletion keeps exactly the agents with another id, each with its multiplicity, in order; the id is then absent |
| Storage.RemoveAbsent | lib/storage.ts:60-64 | deleting an absent id changes nothing |
| Storage.ExportNeverEmpty | app/api/agent/route.ts:153-158 | because reading seeds the store, the export's "no agents" branch is never taken |
| Storage.AgentStore.EnsureAgentsFile | lib/storage.ts:19-34 | the file becomes its seeded form |
| Storage.AgentStore.GetAgents | lib/storage.ts:36-40 | seeds, then returns the stored array, which is non-empty |
| Storage.AgentStore.GetAgent | lib/storage.ts:42-45 | seeds, then returns the first agent with the id, or none |
| Storage.AgentStore.SaveAgent | lib/storage.ts:47-58 | seeds, then writes back the upserted array; fails and writes nothing on a non-array file |
| Storage.AgentStore.DeleteAgent | lib/storage.ts:60-64 | seeds, then writes back the array without the id; fails and writes nothing on a non-array file |
| Page.ReplaceById | app/page.tsx:82-84 | every sub-agent with the updated id is replaced, others kept; length and order unchanged |
| Page.ReplaceByIdLookup | app/page.tsx:82-84 | after replacing, the updated id finds the update, and other ids find what they found before |
| Page.ReplaceWithItself | app/page.tsx:82-84 | with unique ids, replacing a sub-agent by itself changes nothing |
| Page.EditorPage.constructor | app/page.tsx:13-17 | the page starts loading, with no agent, no selection and nothing saved |
| Page.EditorPage.LoadAgent | app/page.tsx:20-54 | first stored agent and its root; the seed and its root (also posted) on an empty list; the seed on failure; loading ends |
| Page.EditorPage.SaveAgent | app/page.tsx:57-70 | posts the agent and clears the saving flag |
| Page.EditorPage.HandleAgentChange | app/page.tsx:73-76 | sets the agent and posts it |
| Page.EditorPage.HandleSubAgentChange | app/page.tsx:79-88 | no-op without an agent; otherwise replaces by id and posts; the selected sub-agent becomes the update |
| Page.EditorPage.SelectedSubAgent | app/page.tsx:91 | present iff an agent is loaded, an id is selected and some sub-agent has it; then the first sub-agent with that id |
| Page.EditorPage.SelectSubAgent | app/page.tsx:124-127 | selects the id and clears the global flag |
| Page.EditorPage.SelectGlobal | app/page.tsx:128-131 | clears the selection and sets the global flag |
| Page.EditorPage.CurrentView | app/page.tsx:93-149 | loading, then not-found, then global settings (taking precedence), then the selected editor |
| ToolEditor.AddParameter | components/ToolEditor.tsx:23-34 | appends one `{'' , string, '', false}` parameter, missing list read as empty; other tool fields kept |
| ToolEditor.UpdateParameter | components/ToolEditor.tsx:36-40 | replaces only parameter `i` |
| ToolEditor.DeleteParameter | components/ToolEditor.tsx:42-46 | removes only parameter `i`, order kept; out of range changes nothing |
| ToolEditor.OtherTools | components/ToolEditor.tsx:48 | the candidates are all tools with another id, each with its multiplicity, in order; never the tool itself |
| ToolEditor.TogglePrerequisite | components/ToolEditor.tsx:131-141 | checking appends the id; unchecking removes every occurrence and keeps every other id with its multiplicity, in order |
| ToolEditor.CheckThenUncheck | components/ToolEditor.tsx:131-141 | checking and then unchecking an unchecked id restores the prerequisites |
| ToolEditor.AddTool | components/ToolEditor.tsx:235-244 | appends one lookup tool with empty name, description and parameters and no prerequisites |
| ToolEditor.UpdateTool | components/ToolEditor.tsx:246-250 | replaces only tool `i` |
| ToolEditor.DeleteTool | components/ToolEditor.tsx:252-256 | removes only tool `i`, order kept |
| RuleEditor.AddRule | components/RuleEditor.tsx:118-126 | appends one `always` rule with no condition |
| RuleEditor.UpdateRule | components/RuleEditor.tsx:128-132 | replaces only rule `i` |
| RuleEditor.DeleteRule | components/RuleEditor.tsx:134-138 | removes only rule `i`, order kept |
| RuleEditor.SetScope | components/RuleEditor.tsx:88-91 | changing scope keeps every other field, including a stale condition |
| RuleEditor.ScopeRoundTrip | components/RuleEditor.tsx:88-91 | switching the scope and back restores the rule |
| RuleEditor.EditCondition | components/RuleEditor.tsx:99-110 | the condition can be edited iff the scope is conditional, and the edit sets only the condition |
| RuleEditor.AddPolicy | components/RuleEditor.tsx:257-265 | appends one `advisory` policy |
| RuleEditor.UpdatePolicy | components/RuleEditor.tsx:267-271 | replaces only policy `i` |
| RuleEditor.DeletePolicy | components/RuleEditor.tsx:273-277 | removes only policy `i`, order kept |
| OutcomeEditor.AvailableTargets | components/OutcomeEditor.tsx:30 | the targets are all sub-agents except the current one, each with its multiplicity, in order |
| OutcomeEditor.NextTargetOptions | components/OutcomeEditor.tsx:133-138 | the select offers the empty option first, then the ids of the available targets one per target, in list order, so exactly the other sub-agents' ids |
| OutcomeEditor.SelectNextTarget | components/OutcomeEditor.tsx:124-130 | the empty option clears the target; any other value sets it; nothing else changes |
| OutcomeEditor.NoSelfTarget | components/OutcomeEditor.tsx:124-138 | no option of the select makes an outcome lead to its own sub-agent |
| OutcomeEditor.SelectorRoundTrip | components/OutcomeEditor.tsx:124-130 | choosing the value the select shows leaves the outcome unchanged |
| OutcomeEditor.TargetLabel | components/OutcomeEditor.tsx:51-55 | a label shows iff the target is non-empty: the first matching sub-agent's name, `Unknown` when that name is empty or nothing matches |
| OutcomeEditor.SetConditionType | components/OutcomeEditor.tsx:104-114 | changing the type keeps the expression and every other field |
| OutcomeEditor.SetExpression | components/OutcomeEditor.tsx:146-152 | changing the expression keeps the type and every other field |
| OutcomeEditor.ConditionEditsCommute | components/OutcomeEditor.tsx:104-152 | the two condition edits commute and together set the whole condition |
| OutcomeEditor.AddOutcome | components/OutcomeEditor.tsx:179-190 | appends one observation outcome with an empty expression and no target |
| OutcomeEditor.UpdateOutcome | components/OutcomeEditor.tsx:192-196 | replaces only outcome `i` |
| OutcomeEditor.DeleteOutcome | components/OutcomeEditor.tsx:198-202 | removes only outcome `i`, order kept |
| GlobalSettings.AddGlossaryTerm | components/GlobalSettings.tsx:16-22 | appends one empty term; other agent fields kept |
| GlobalSettings.UpdateGlossaryTerm | components/GlobalSettings.tsx:24-28 | replaces only term `i`; other agent fields kept |
| GlobalSettings.DeleteGlossaryTerm | components/GlobalSettings.tsx:30-34 | removes only term `i`, order kept |
| GlobalSettings.SetTone | components/GlobalSettings.tsx:116-126 | changing tone keeps verbosity and every other field |
| GlobalSettings.SetVerbosity | components/GlobalSettings.tsx:136-147 | changing verbosity keeps tone and every other field |
| GlobalSettings.StyleEditsCommute | components/GlobalSettings.tsx:116-147 | the two style edits commute and together set the whole style |
| GlobalSettings.RootOptions | components/GlobalSettings.tsx:168-172 | the options are exactly the existing sub-agents' ids, in order |
| GlobalSettings.ChooseRoot | components/GlobalSettings.tsx:164-174 | a chosen root always resolves to the chosen sub-agent; nothing else changes |
| GlobalSettings.ChosenRootIsEntryPoint | components/GlobalSettings.tsx:164-174 | a chosen root is always an entry point of the agent tree |
| Serializer.LookupAppend | app/api/agent/route.ts:102-139 | a key of an ordered mapping built in pieces is looked up in the first piece that has it |
| Serializer.ParamRoundTrip | app/api/agent/route.ts:14-19 | a parameter's document decodes back to the parameter |
| Serializer.ToolToDoc | app/api/agent/route.ts:6-11 | a tool document starts with `name`, `type`, `description` in that order |
| Serializer.ToolDocLists | app/api/agent/route.ts:13-24 | `parameters` and `prerequisites` appear only when non-empty, projected and unchanged |
| Serializer.ToolRoundTrip | app/api/agent/route.ts:6-27 | a tool document decodes back to the tool, with an empty list read as absent |
| Serializer.RuleToDoc | app/api/agent/route.ts:29-41 | a rule document has `condition` iff the condition is non-empty, whatever the scope |
| Serializer.RuleRoundTrip | app/api/agent/route.ts:29-41 | a rule document decodes back to the rule, an empty condition read as absent |
| Serializer.PolicyRoundTrip | app/api/agent/route.ts:43-49 | a policy document decodes back to the policy |
| Serializer.TargetName | app/api/agent/route.ts:61-66 | the exported target is the first sub-agent's name with the non-empty target id, if any |
| Serializer.OutcomeToDoc | app/api/agent/route.ts:51-69 | `next_sub_agent` is present iff the target resolves, and holds its name |
| Serializer.OutcomeRoundTrip | app/api/agent/route.ts:51-69 | an outcome document decodes back to the outcome (minus the id link) and the target's name |
| Serializer.SortedDescriptions | app/api/agent/route.ts:77-81 | sorting a copy in place and projecting gives the workflow lines |
| Serializer.WorkflowLinesOrder | app/api/agent/route.ts:77-81 | the lines are the descriptions of a stable, ascending permutation of the steps |
| Serializer.SubAgentToDoc | app/api/agent/route.ts:71-75 | a sub-agent document starts with `name`, `objective` |
| Serializer.SubAgentFields | app/api/agent/route.ts:77-97 | each optional field (`workflow`, `tools`, `rules`, `policies`, `outcomes`) holds its mapped list under its own key iff the list is non-empty |
| Serializer.SubAgentLookup | app/api/agent/route.ts:70-97 | a key other than `name`/`objective` is found in the optional fields in document order |
| Serializer.SubAgentRulesExport | app/api/agent/route.ts:87-89 | `rules` is present iff there are rules, same length and order, each decoding back with an empty condition read as absent |
| Serializer.SubAgentPoliciesExport | app/api/agent/route.ts:91-93 | `policies` is present iff there are policies, same length and order, each decoding back to the policy |
| Serializer.SubAgentWorkflowExport | app/api/agent/route.ts:77-81 | `workflow` is present iff there are steps, holding the lines by order |
| Serializer.SubAgentToolsExport | app/api/agent/route.ts:83-85 | `tools` is present iff there are tools, same length and order, each decoding back |
| Serializer.SubAgentOutcomesExport | app/api/agent/route.ts:95-97 | `outcomes` is present iff there are outcomes, one document per outcome in order |
| Serializer.ExportIgnoresDisplaySort | app/api/agent/route.ts:77-81 | sorting the workflow first (as the editor's view does) does not change the document |
| Serializer.AssignDefinition | app/api/agent/route.ts:125-128 | `acc[term] = definition` overwrites that term and keeps the others |
| Serializer.AssignKeys | app/api/agent/route.ts:125-128 | a new term is appended as the last key; an existing key stays in place |
| Serializer.CollapseSemantics | app/api/agent/route.ts:124-129 | each term maps to its last definition; keys are the distinct terms in first-occurrence order |
| Serializer.CollapseGlossary | app/api/agent/route.ts:125-128 | the reduce loop builds exactly the collapsed glossary |
| Serializer.GlossaryDocLookup | app/api/agent/route.ts:124-129 | the glossary document maps each term to its definition |
| Serializer.EntryPointName | app/api/agent/route.ts:135-138 | the entry point's name exists iff the root id is found |
| Serializer.AgentBody | app/api/agent/route.ts:103-112 | the agent body starts with `name`, `description`, `response_style` |
| Serializer.AgentToDoc | app/api/agent/route.ts:102-112 | the document is a single `agent` key holding the body |
| Serializer.AgentLookup | app/api/agent/route.ts:104-139 | a key other than `name`, `description`, `response_style` is found in the optional fields in document order |
| Serializer.AgentFields | app/api/agent/route.ts:116-139 | each optional agent field (`global_rules`, `global_policies`, `glossary`, `sub_agents`, `entry_point`) holds its value under its own key iff its condition holds |
| Serializer.GlobalRulesExport | app/api/agent/route.ts:116-118 | `global_rules` is present iff there are global rules, same length and order, each decoding back with an empty condition read as absent |
| Serializer.GlobalPoliciesExport | app/api/agent/route.ts:120-122 | `global_policies` is present iff there are global policies, same length and order, each decoding back to the policy |
| Serializer.EntryPointExport | app/api/agent/route.ts:131-139 | `entry_point` is present iff sub-agents exist and the root resolves, holding its name |
| Serializer.SubAgentsExport | app/api/agent/route.ts:131-132 | `sub_agents` is present iff there are sub-agents, same length and order |
| Serializer.GlossaryExport | app/api/agent/route.ts:124-129 | `glossary` is present iff non-empty; keys are the distinct terms, values the last definitions |
| Serializer.Export | app/api/agent/route.ts:149-174 | a failing store gives 500; an empty store the fixed comment; otherwise the first agent's document |
| Serializer.ExportUsesFirstAgentOnly | app/api/agent/route.ts:160-161 | agents after the first do not affect the export |

## Left out

- YAML text: `yaml.dump` (app/api/agent/route.ts:141-146) is a foreign library. The model stops
  at the ordered document tree (`Serializer.Value`).
- File and network I/O are abstracted:
  - `fs.access`/`readFile`/`writeFile`/`mkdir` become a `FileState` field: missing, unparseable,
    a non-array JSON value, or an array of agents.
  - `fetch` becomes a `LoadResponse` parameter of `LoadAgent` and the `posted` log of the page.
  - Errors from `console.error` are not modelled.
- Non-array JSON: the store reads a parsed JSON value that is not an array as `NonArray` and
  leaves it alone. `getAgents` then reports failure; the source would hand back the object and a
  later `.find`/`.findIndex` would throw. A non-array value that happens to have a `length`
  property is not distinguished.
- The lost-update race between concurrent `saveAgent`/`deleteAgent` read-modify-write calls.
  The model is sequential.
- The seed agent's contents (lib/data/transaction-dispute-agent is not part of this model). It
  is a constructor parameter of `AgentStore` and `EditorPage`.
- `Date.now()`-based ids: every add operation takes the fresh id as a parameter.
- JavaScript object key order. Integer-like glossary terms are enumerated first by the engine,
  and a `__proto__` term is special. The model keeps plain insertion order.
- Shallow-copy aliasing: `deleteWorkflowStep`/`moveWorkflowStep` renumber step objects that are
  shared with the previous state. The model uses value semantics, so the old workflow is not
  mutated.
- Schema validation: values read from the file are assumed to have the entity shapes of
  lib/types.ts.
- HTTP wrappers: app/api/agents/route.ts, app/api/debug/route.ts, the `NextResponse` headers,
  and the `blobConfigured` flag.
- Presentation: components/Header.tsx, app/layout.tsx, JSX, CSS, icons, the expand/collapse
  state and tab selection.
- Graph.RenderUnguarded: the fuel parameter bounds the model only; the components recurse
  without any bound. So the model can state how tall the rendering gets for each fuel, but not
  that the real recursion fails to terminate.
- Graph.RenderGuarded: both tree views are modelled with a path guard (a child already on the
  path is shown as a leaf) that `TreeItem` and `renderSubAgent` do not have. The unguarded
  rendering is `Graph.RenderUnguarded`; `Graph.GuardedAgreesUnguarded` shows the two agree
  whenever the outcome graph has no cycle, and the cyclic case is the finding below.
- Workflow `order` is a JavaScript number sorted with `a.order - b.order`
  (app/api/agent/route.ts:78, components/SubAgentEditor.tsx:141). The model uses `int`, so
  fractional and NaN orders, and the comparator inconsistency NaN brings, are not modelled.
- Serializer.SortedDescriptions sorts a fresh copy of the workflow. `subAgentToYaml` sorts the
  loaded sub-agent's own `workflow` array in place (app/api/agent/route.ts:77-79); the reordering
  of that array, which GET then discards, is not modelled.
- Tab label counts ("Rules & Policies (n)", components/SubAgentEditor.tsx:63, and "Glossary (n)",
  components/GlobalSettings.tsx:39) are list lengths; the add and delete contracts already fix
  those lengths, so no separate member states them.
- `parentId` of a sub-agent is carried in the datatype; no core operation reads it.

## Findings

| source | as written | input that shows it | evidently intended | confidence | as-written member | corrected member |
|---|---|---|---|---|---|---|
| components/Sidebar.tsx:70-78 | `TreeItem` renders every resolved child again with no visited check (likewise components/AgentTree.tsx:98) | `rootSubAgentId` is `a`, and the two sub-agents `a`, `b` have outcomes leading `a → b` and `b → a` | a finite tree, each node expanded at most once per path | not executed | Sidebar.UnguardedCycleNeverBottomsOut | Sidebar.GuardedCycleIsFinite |
