# Access management: a verified model

This project models the decision core of the policy decision point in Dafny and proves
what its code promises: the check procedure and its caches, the query planner, the
compilation of policies into rule table rows, the table under storage events, and the
small concurrent protocols around them. Every claim below is a statement for the Dafny
verifier (`dafny verify dfyconfig.toml`).

A CEL expression is its source text; what the CEL library makes of it is a parameter of
the model, a function from the text and everything an evaluation can see to a value, a
CEL error or a hard failure. Go maps are iterated in arbitrary order. Concurrent code is
a transition system over its atomic steps, and its laws are about every run.

| file | what it models |
|---|---|
| `Conditions.dfy` | condition trees, variables, the runtime object |
| `Check.dfy` | the decision procedure for one action, without caches, and its closed form |
| `CheckLoop.dfy` | the loops of `check` with all caches, for a batch of actions |
| `Leftovers.dfy` | what an action of a batch leaves to the next |
| `Runtimes.dfy` | runtime objects that do not depend on the scope before |
| `Consent.dfy`, `RequestConsent.dfy` | scopes that require parental consent, in the loops and in requests |
| `Strict.dfy` | strict against lenient evaluation |
| `PlanNodes.dfy`, `Plan.dfy` | plan nodes, filters and the planning loops |
| `PlanCheck.dfy` | the plan against the decision procedure |
| `PlanConsent.dfy` | what the plan loses to parental consent |
| `PlanRows.dfy` | the plan read off the rows |
| `RowIndex.dfy` | rows, queries and the existence test |
| `PolicyRows.dfy` | policies compiled to rows; evaluation keys |
| `CompiledQueries.dfy` | requests against the policies a table was compiled from |
| `RoleReadings.dfy` | effective derived roles against derived roles of rules |
| `Scopes.dfy` | scope chains and scoped names |
| `TableManager.dfy` | incremental table maintenance |
| `ReloadProtocol.dfy` | coalesced reloads |
| `EventDelivery.dfy` | the subscription manager |
| `WorkerPool.dfy` | serial and parallel checks |
| `AuthzenBatch.dfy` | AuthZEN evaluation batches (section 7 of the OpenID AuthZEN Authorization API 1.0) |
| `Variables.dfy` | used variables and constants, their order and their meaning |
| `RandPool.dfy` | the pool of random sources behind audit IDs |
| `SingleRow.dfy` | requests against a single conditional row |
| `Counterexamples.dfy`, `PlanExamples.dfy` | why the laws need their side conditions |

## Where the code and a plain reading of it differ

- A conditional DENY of resource policies without any ALLOW, next to a principal ALLOW,
  is planned as "not denied": the plan can let through what `check` denies
  (`PlanCheck.PlanUnsoundExactly`, `PlanExamples.BareDenyAllows`).
- The planner reads the derived roles of every scope under an empty list, `check` under
  the effective derived roles of the scope before. Where a derived role reads those, the
  plan can let through what `check` denies and the other way round
  (`Counterexamples.ChainedPlanUnsound`, `Counterexamples.ChainedPlanMisses`).
- The existence test uses the principal's policy version, both queries use the
  resource's. With two versions the plan can allow what `check` denies
  (`RowIndex.TablePlanSound`, `RowIndex.MixedVersionsDisagree`), and a consent scope can
  widen a decision because it passes the test
  (`RequestConsent.SilentConsentWidensExactly`, `RequestConsent.MixedVersionsWiden`).
- With several roles the denials of all roles are joined in one node, and an ALLOW in a
  scope that requires parental consent is held back: the plan can miss what `check`
  allows (`PlanCheck.PlanMissesExactly`, `PlanConsent.PlanMissesWithConsent`,
  `PlanExamples.RoleDenialHides`, `PlanExamples.ConsentHides`).
- A scope that requires parental consent can widen a decision when it denies a role
  whose scan was rejected or failed, or when it changes the effective derived roles that
  a derived role of the next scope reads (`Consent.CutOffWidens`,
  `Counterexamples.HandOverWidens`).
- The effective derived roles that an action leaves in the evaluation context are seen by
  the principal policies of the next action in the batch
  (`CheckLoop.CheckActions`, `Leftovers.LeftoverWidens`, `Leftovers.LeftoverExample`).
- A derived role can be effective while the rules that name it do not apply, and the other
  way round: variables that fail are null for the one and unset for the other in lenient
  mode, and the two see the effective derived roles of different scopes
  (`RoleReadings.FailingVariableDivides`, `RoleReadings.RuntimeDivides`).
- Strict mode can allow what lenient mode denies when a derived role tests for the
  presence of a variable (`Counterexamples.PresenceTestWidens`).
- Reloaded dependents are not checked for conflicting scope permissions
  (`TableManager.DependentsUnchecked`, `TableManager.DependentConflicts`).
- Evaluations of one batch are grouped by the id of the subject, not by its type or
  properties (`AuthzenBatch.FirstSubjectWins`).
- A scope that starts with a dot lists the root twice in the tree of names
  (`Scopes.TreeIsChain`); a scope cannot be read back from a name whose unscoped part
  has a slash (`Scopes.ScopeRoundTrip`).

## Model

| member | source | states |
|---|---|---|
| `Conditions.TotalEvaluation` | internal/ruletable/check.go:679-756 | When every expression of an all/any/none tree yields a boolean, the tree never fails and has the truth of its boolean reading, in strict and in lenient mode; LenientReading and StrictReading say the same of expressions as CEL evaluates them, AllOfFirst, AnyOfFirst and NoneOfFirst of operands that fail |
| `Conditions.AllOfFirst` | internal/ruletable/check.go:697-713 | An `all` is decided by its first operand that is not true: it is false where that is false and fails where that fails, whatever follows; it is true exactly when there is none |
| `Conditions.AnyOfFirst` | internal/ruletable/check.go:715-731 | An `any` is decided by its first operand that is not false: it is true where that is true and fails where that fails; it is false exactly when there is none |
| `Conditions.NoneOfFirst` | internal/ruletable/check.go:733-749 | A `none` is decided by its first operand that is not false: it is false where that is true and fails where that fails; it is true exactly when there is none |
| `Conditions.LenientReading` | internal/ruletable/check.go:758-774 | In lenient mode a condition without hard failures never fails: it has its boolean reading, where an expression counts as true exactly when CEL yields true, so that CEL errors and values that are not booleans count as false |
| `Conditions.StrictReading` | internal/ruletable/check.go:758-774 | In strict mode the same where CEL yields values only; an expression that is a CEL error fails |
| `Conditions.HardFailureFails` | internal/ruletable/check.go:679-756 | In either mode an expression that fails hard fails, and so does an operator that is not known |
| `Conditions.EvaluatePrograms` | internal/ruletable/check.go:651-677 | The loop over the programs of a rule: a CEL error leaves a variable unset, a hard failure is remembered to the end and fails the whole |
| `Conditions.EvaluateVariables` | internal/ruletable/check.go:612-633 | The loop over the variables of a derived role: a CEL error is null in lenient mode and unset in strict mode |
| `Conditions.RuntimeIrrelevant` | internal/ruletable/check.go:679-756 | A condition none of whose expressions reads the runtime object has the same truth under every runtime object |
| `Conditions.VariablesRuntimeIrrelevant` | internal/ruletable/check.go:612-633 | Variables that do not read the runtime object evaluate to the same map under every runtime object |
| `Check.ScanMeaning` | internal/ruletable/check.go:295-414 | Scanning the rows of one scope in order finds a DENY exactly when some satisfied row denies, and otherwise remembers exactly whether some satisfied row allows |
| `Check.ChainClosedForm` | internal/ruletable/check.go:230-426 | In error-free runs the labelled-break scope loop gives the verdict of the most specific decisive scope, where DENY beats ALLOW, and NO_MATCH when no scope is decisive |
| `Check.RolesClosedForm` | internal/ruletable/check.go:208-443 | The loop over roles ends in ALLOW exactly when some role's verdict is ALLOW, whatever the other roles say |
| `Check.DecideClosedForm` | internal/ruletable/check.go:194-455 | ALLOW if and only if policies exist and the principal verdict is ALLOW, or it is NO_MATCH and some role's verdict is ALLOW; DENY in every other error-free case |
| `Check.OrderIrrelevant` | internal/ruletable/check.go:208-443 | Reordering the principal's roles and reordering the rows inside every query leaves the effect unchanged |
| `Consent.PrincipalConsentNarrows` | internal/ruletable/check.go:231-453 | Inserting a scope that requires parental consent, with any rows and anywhere in the principal chain, never makes the loops allow; strict mode and failing runs included |
| `Consent.ResourceConsentNarrows` | internal/ruletable/check.go:231-453 | The same for the resource chain when the inserted scope hands the runtime object over and no allowing role is cut off by an earlier role whose scan is rejected or fails |
| `Consent.CutOffWidens` | internal/ruletable/check.go:350-376 | The second condition is exact: when an allowing role is cut off, some rows of an inserted consent scope turn the decision into ALLOW |
| `Consent.ErrorFreeNotCutOff` | internal/ruletable/check.go:208-443 | In error-free runs no role is cut off, so that there the narrowing holds without that condition |
| `Consent.ChainNarrows` | internal/ruletable/check.go:231-426 | For one role and any carried ALLOW, the verdict of a chain with an inserted consent scope grants nothing that the chain without it does not grant |
| `Consent.RuntimeFreeHandsOver` | internal/ruletable/check.go:237-282 | The runtime object is always handed over when no derived role reads it |
| `Consent.RuntimeShift` | internal/ruletable/check.go:237-282 | When it is handed over, every scope behind the inserted one keeps its runtime object, unless computing one fails |
| `Counterexamples.CutOffExample` | internal/ruletable/check.go:350-376 | A strict request with two roles where a role is cut off and an inserted consent scope turns DENY into ALLOW |
| `Counterexamples.HandOverWidens` | internal/ruletable/check.go:237-282 | The first condition is exact: wherever the runtime object behind the inserted scope changes, a row that allows if an expression tells the new object from the old one turns from silence to ALLOW |
| `Counterexamples.HandOverExample` | internal/ruletable/check.go:237-282 | A request with a derived role that reads the runtime object, to which this applies |
| `RequestConsent.ConsentNarrows` | internal/ruletable/check.go:164-170 | For a request, with the existence test made again: an inserted consent scope turns a decision into ALLOW only if the request failed the test although its loops allow, the scope alone passes it, and the two policy versions differ |
| `RequestConsent.ConsentNarrowsDecisions` | internal/ruletable/check.go:164-455 | So with one policy version, or with a scope that cannot pass the test, an inserted consent scope never turns a decision into ALLOW |
| `RequestConsent.SilentConsentWidensExactly` | internal/ruletable/check.go:164-170 | That condition is exact: a consent scope without rows for the action turns a decision into ALLOW if and only if the request failed the test, its loops allow and the scope passes the test |
| `RequestConsent.MixedVersionsWiden` | internal/ruletable/check.go:164-170 | A table and a request with two versions where somebody else's policy in an inserted consent scope turns DENY into ALLOW |
| `CheckLoop.RuleVariables` | internal/ruletable/check.go:308-321 | With sound caches, the cached variables of a rule are those a fresh evaluation gives, and the caches stay sound |
| `CheckLoop.EvaluateRole` | internal/ruletable/check.go:249-268 | A derived role evaluated through the variable cache has the truth it has without caches |
| `CheckLoop.DerivedRolesOf` | internal/ruletable/check.go:237-282 | Whatever order the derived roles are taken in, the runtime object of a scope is the one determined by the set of roles in effect, and unavailable in strict mode when one failed |
| `CheckLoop.EnterScope` | internal/ruletable/check.go:237-282 | Entering scopes in order with remembered derived roles gives each scope the runtime object it has without caches |
| `CheckLoop.EvaluateBinding` | internal/ruletable/check.go:306-380 | With sound caches a binding is satisfied, skipped, rejected or aborted exactly as without caches, and what it leaves in the caches is sound |
| `CheckLoop.ScanScope` | internal/ruletable/check.go:294-414 | The rows of one scope scanned through the caches end as they do without caches |
| `CheckLoop.CheckRole` | internal/ruletable/check.go:215-426 | The scope loop of one role with caches ends in the verdict of the cache-free procedure |
| `CheckLoop.CheckAction` | internal/ruletable/check.go:194-453 | One action with caches left over from earlier actions gets the effect of the cache-free procedure |
| `CheckLoop.CheckActions` | internal/ruletable/check.go:179-460 | A batch of actions with all caches: every action gets the effect it gets alone and without caches, and the batch fails exactly when one of its actions does, if no principal condition reads the runtime object or the batch has one action; behind an action without principal rows, an action gets the effect under the runtime object that the first one left, and an action asked for twice is denied if it is denied once |
| `CheckLoop.BlindDecision` | internal/ruletable/check.go:281-300 | Where no principal condition reads the runtime object, what an earlier action left does not change a decision |
| `Leftovers.LeftoverWidens` | internal/ruletable/check.go:281-300 | That condition is needed: for every request whose resource scopes end with derived roles that an expression can tell from none, a principal row that allows if it holds denies the action alone and allows it behind another one |
| `Leftovers.LeftoverBatch` | internal/ruletable/check.go:179-460 | The loops with their caches, run on that batch of two actions, do so |
| `Leftovers.LeftoverExample` | internal/ruletable/check.go:179-460 | A request and a batch to which this applies |
| `PolicyRows.EqualKeysEqualConditions` | internal/ruletable/ruletable.go:216-223 | Rows with equal evaluation key tuples have equal conditions, the same kind and the same scope, when rule names are distinct within each policy |
| `PolicyRows.CompiledVariableKeys` | internal/ruletable/ruletable.go:816-826 | The variable cache keys of such tables, parameter hashes for rules and role hashes for derived roles, tell apart whatever has different variables |
| `PolicyRows.CompiledTablesAreTransparent` | internal/ruletable/check.go:323-380 | Tables compiled from such policies with the derived roles of those policies, where no variable and no principal condition reads the runtime object and content hashes do not collide, satisfy everything that the caches and batches rely on |
| `Strict.StrictTruth` | internal/ruletable/check.go:679-756 | By induction on the tree: where every expression is a CEL error in strict mode or has its lenient outcome, the strict truth of a condition is a failure or its lenient truth |
| `Strict.StrictVariables` | internal/ruletable/check.go:612-633 | The variables known in strict mode are a part of those known in lenient mode, with the same values |
| `Strict.StrictRuntime` | internal/ruletable/check.go:237-282 | The runtime object of strict mode is unavailable or that of lenient mode |
| `Strict.StrictChain` | internal/ruletable/check.go:230-426 | Lifted through the scope loop: the strict verdict is a rejection or the lenient verdict, unless lenient mode fails |
| `Strict.StrictRefinesLenient` | internal/ruletable/check.go:350-376 | For every table and request where each scope has its lenient runtime object in strict mode too, or none and its rows cannot tell: where lenient mode decides, strict mode decides DENY or the same effect |
| `Strict.PresenceFreeRefines` | internal/ruletable/check.go:237-282 | That holds of every request whose resource rows and derived roles do not test for the presence of a variable |
| `Counterexamples.StrictWidens` | internal/ruletable/check.go:350-376 | The condition is needed: wherever the runtime objects of the two modes differ, a row that allows if an expression holds of the strict one and not of the lenient one makes strict mode allow what lenient mode does not |
| `Counterexamples.RoleFlipWidens` | internal/ruletable/check.go:612-633 | In particular for every derived role that is in effect in one mode only, whichever it is |
| `Counterexamples.PresenceTestWidens` | internal/ruletable/check.go:612-633 | For every expression language, every variable that fails to evaluate and every presence test of either polarity: a derived role with that test makes strict mode allow what lenient mode does not |
| `Counterexamples.PresenceExample` | internal/ruletable/check.go:612-633 | An expression language and a request to which this applies, where the presence test is the only expression that is not monotone |
| `PlanNodes.Dedup` | internal/ruletable/planner/planner.go:172-196 | Dropping repeated nodes keeps exactly the same nodes |
| `PlanNodes.OrMeaning` | internal/ruletable/planner/planner.go:148-158 | An OR node, deduplicated or collapsed to its only operand, is true where one of the operands is |
| `PlanNodes.AndMeaning` | internal/ruletable/planner/planner.go:160-170 | An AND node, deduplicated or collapsed, is true where all of the operands are |
| `PlanNodes.AddMeaning` | internal/ruletable/plan.go:415-423 | Adding a node to an accumulated one joins their meanings; nil contributes nothing |
| `PlanNodes.ConditionMeaning` | internal/ruletable/planner/planner.go:314-415 | The node built from an all/any/none tree, with its constant folding, has the truth of the tree when every residual has the truth of its expression |
| `PlanNodes.ConditionFolds` | internal/ruletable/planner/planner.go:314-415 | A condition that the request determines is planned as the constant it is |
| `PlanNodes.NormaliseMeaning` | internal/ruletable/planner/ast.go:602-757 | Filter normalisation preserves meaning |
| `PlanNodes.NormaliseFolds` | internal/ruletable/planner/ast.go:602-757 | A normalised filter expression is a constant or has no constant in it |
| `PlanNodes.FilterMeaning` | internal/ruletable/planner/ast.go:589-626 | The filter kind and condition made from a plan hold of exactly the resources the plan is true of |
| `PlanNodes.MergeWithAnd` | internal/ruletable/planner/merge.go:14-48 | The merged filter holds exactly where all filters hold |
| `Plan.PlanRoles` | internal/ruletable/plan.go:141-189 | The loop over the derived roles of a scope makes a list of role names and nodes, each condition read under an empty list |
| `Plan.PlanScope` | internal/ruletable/plan.go:130-265 | The derived roles of the scope and the loop over its bindings collect the nodes that PlanCheck.NodesMeaning interprets |
| `Plan.PlanRole` | internal/ruletable/plan.go:121-342 | The loop over scopes with pending ALLOWs and gated parent DENYs computes the fold that PlanCheck.RoleMeaning interprets |
| `Plan.PlanKind` | internal/ruletable/plan.go:105-346 | The loop over roles, with its early exit, computes the nodes of one policy kind |
| `Plan.PlanResources` | internal/ruletable/plan.go:93-396 | The returned filter holds of a resource exactly when the plan of every requested action does |
| `PlanCheck.ListDenotes` | internal/ruletable/plan.go:141-189 | The list of a scope stands, for the resource, for the runtime object that the scope's own derived roles make under no derived roles |
| `PlanCheck.PlannedRuntime` | internal/ruletable/plan.go:141-189 | So the planner shows the rows of a scope the runtime object of check where that does not depend on the scope before |
| `Runtimes.RuntimeFreeUnchained` | internal/ruletable/check.go:237-282 | It does not when no derived role reads the runtime object and none fails |
| `Runtimes.EffectiveExactly` | internal/ruletable/check.go:237-282 | A derived role is effective at a scope exactly when the scope has it, its parent roles include the wildcard or one of the principal's roles or their parents, and its condition holds under the effective derived roles of the scope before |
| `Counterexamples.ChainedPlanUnsound` | internal/ruletable/plan.go:141-189 | The condition is needed: wherever a scope has another runtime object than its own derived roles make, a row that allows if an expression tells them apart is planned as allowed and denied by check |
| `Counterexamples.ChainedPlanMisses` | internal/ruletable/plan.go:141-189 | ... and the other way round the plan misses what check allows |
| `Counterexamples.ChainedPlanExample` | internal/ruletable/plan.go:141-189 | A derived role of the root that needs a derived role of the scope before not to be in effect: the plan is true and check denies |
| `PlanCheck.NodesMeaning` | internal/ruletable/plan.go:199-265 | The ALLOW and DENY nodes of a scope are true exactly where a row with that effect is satisfied |
| `PlanCheck.GateMeaning` | internal/ruletable/plan.go:425-436 | A gated parent DENY is true exactly where the DENY is and no child OVERRIDE_PARENT scope allows |
| `PlanCheck.FoldTracks` | internal/ruletable/plan.go:130-299 | The accumulated nodes track the check loop scope by scope: decided, pending consent or still open |
| `PlanCheck.RoleMeaning` | internal/ruletable/plan.go:301-342 | For one role: where the plan's ALLOW node is true and its DENY node is not, the role's verdict is ALLOW; exactly so without consent scopes |
| `PlanCheck.PlanSound` | internal/ruletable/plan.go:93-388 | If one action's plan is true of a resource then check allows it, for any number of roles and any mix of scope permissions, provided that no bare deny is planned |
| `PlanCheck.PlanUnsoundOnlyIf` | internal/ruletable/plan.go:363-388 | For any mix of permissions, a plan that lets through a resource that check does not allow has a bare deny, no DENY condition and no principal ALLOW holds |
| `PlanCheck.PlanUnsoundExactly` | internal/ruletable/plan.go:363-388 | Without consent scopes these are exactly the cases in which the plan lets through a resource that check denies |
| `PlanCheck.PlanExact` | internal/ruletable/plan.go:130-299 | For one role and no consent scope the plan is true exactly where check returns ALLOW |
| `PlanCheck.PlanMissesExactly` | internal/ruletable/plan.go:344-371 | With several roles and no consent scopes, the exact cases in which the plan misses a resource that check allows: principal policies silent, a role allows, and the deny node that joins all roles holds |
| `PlanConsent.RoleKept` | internal/ruletable/plan.go:267-305 | Of a resource that check allows to a role, the role's ALLOW node is true exactly when some ALLOW starts afresh and fires, every later scope that has to consent fires too, and the last scope with an ALLOW row does not ask for consent |
| `PlanConsent.PlanMissesWithConsent` | internal/ruletable/plan.go:285-371 | For any number of roles and any mix of permissions, the exact cases in which the plan misses a resource that check allows |
| `PlanRows.ScopeDenials` | internal/ruletable/plan.go:199-265 | The two deny nodes of a scope, of role policies and of all others, are true exactly where a DENY row of theirs is satisfied |
| `PlanRows.NodesShape` | internal/ruletable/plan.go:199-265 | Which nodes a scope has at all, whatever the resource: an ALLOW node exactly when it has ALLOW rows, a deny node exactly when some DENY row of theirs is not known to be unsatisfied |
| `PlanRows.RoleByRows` | internal/ruletable/plan.go:267-342 | The nodes of one role: its ALLOW is kept, it is not denied outright and no DENY row of a role policy is satisfied before a child scope overrides; its deny node is true exactly when another DENY row is |
| `PlanRows.RoleShape` | internal/ruletable/plan.go:301-342 | A role settles the plan exactly when it is allowed outright: its ALLOW rows are known to be satisfied and its DENY rows not to be, role policies included |
| `PlanRows.OutrightByRows` | internal/ruletable/plan.go:307-325 | A role is denied outright only by DENY rows of one sort of which all are known; where no scope may override its parents, exactly by those |
| `PlanRows.KindByRows` | internal/ruletable/plan.go:344-371 | The ALLOW node and the deny node that joins all roles: a role denied outright makes neither true, and one role that is allowed outright silences the DENY rows of all of them |
| `PlanRows.BareDenyByRows` | internal/ruletable/plan.go:363-384 | A bare deny is planned exactly when the resource policies leave DENY rows and no ALLOW row while the principal policies leave an ALLOW row |
| `PlanRows.PlanByRows` | internal/ruletable/plan.go:93-388 | Of exactly which resources the plan of an action is true, in terms of rows and permissions, for any number of roles and any mix of permissions |
| `PlanExamples.RoleDenialHides` | internal/ruletable/plan.go:344-371 | A table with two roles where the denial of one hides a resource that the other is allowed to use |
| `PlanExamples.ConsentHides` | internal/ruletable/plan.go:285-305 | A table with one role where an ALLOW of an overriding scope is lost to a consent scope further out |
| `PlanExamples.BareDenyAllows` | internal/ruletable/plan.go:363-384 | A table and a resource where the plan is true and check denies, by a bare deny |
| `RowIndex.SelectMembers` | internal/ruletable/index/index.go:205-330 | Selecting goes through the rows one by one and returns exactly the bindings of those that match; QueryExactly and ExistenceExactly say which these are |
| `RowIndex.QueryExactly` | internal/ruletable/index/index.go:205-330 | A request is answered with the denials made up for role policies and the bindings of exactly the rows of the kind, scope and version, with an action, whose action pattern matches, whose role pattern matches the role or one of its parents, whose resource pattern matches the kind as written or sanitized by the rules for literals, principal policies and other globs, and, in principal policies, whose principal it is |
| `RowIndex.ExistenceExactly` | internal/ruletable/check.go:164-170 | The existence test is passed exactly when some row is of a principal policy, of the principal's version and in its scopes, or of a resource policy for the resource, its version and its scopes |
| `RowIndex.EnvRoleAgnostic` | internal/ruletable/check.go:209-213 | The rows of principal policies are the same for every role, so that looking at the first role is enough |
| `RowIndex.AllowNeedsPolicies` | internal/ruletable/check.go:164-170 | With one policy version for principal and resource, a request that the loops allow, failures and strict mode included, passes the existence test |
| `RowIndex.TablePlanSound` | internal/ruletable/check.go:164-170 | For a table: a resource that satisfies the plan is allowed exactly when the existence test lets the request through, which it does when both versions are the same |
| `RowIndex.MixedVersionsDisagree` | internal/ruletable/check.go:164-170 | A table with two versions where the plan is ALWAYS_ALLOWED and check denies |
| `PolicyRows.AddResourcePolicy` | internal/ruletable/ruletable.go:247-418 | The nested loops over rules, actions, roles and derived roles produce exactly the rows that the rules describe, each as often as there are rules that have it |
| `PolicyRows.AddPrincipalPolicy` | internal/ruletable/ruletable.go:138-245 | The same for a principal policy: each row as often as there are rules for its resource that have it; PrincipalCompilationPreservesMeaning and PrincipalRouting say what these rows mean and where they are looked up |
| `PolicyRows.RewrittenMeaning` | internal/ruletable/ruletable.go:340-351 | The rewriting of a conditional ALLOW in a consent scope: the row denies exactly where the condition is false, and no longer allows |
| `PolicyRows.CompilationPreservesMeaning` | internal/ruletable/ruletable.go:247-418 | For any action and roles the satisfied rows of a resource policy allow, and deny, exactly where its rules do; in a consent scope a conditional ALLOW rule denies exactly when it applies and its own condition fails |
| `PolicyRows.PrincipalCompilationPreservesMeaning` | internal/ruletable/ruletable.go:138-245 | The same for principal policies: the satisfied rows made for a resource allow, and deny, exactly where the rules for that resource do |
| `PolicyRows.ResourceRouting` | internal/ruletable/ruletable.go:279-338 | The rows of a resource policy are filed under its name, scope, version and resource |
| `PolicyRows.PrincipalRouting` | internal/ruletable/ruletable.go:163-231 | The rows of a principal policy are filed under its name, scope, version and principal, for every role, and under the sanitized name of their resource |
| `PolicyRows.TableRolesExactly` | internal/ruletable/check.go:237-244 | The derived roles found for a resource, version and scope are those of the policy written for them |
| `CompiledQueries.FiresWherePoliciesDo` | internal/ruletable/check.go:284-414 | In a table compiled from policies a satisfied row allows, or denies, a request at a scope exactly where a rule of a policy of that scope and version does: of a resource policy for the resource, or of a policy of the principal |
| `CompiledQueries.VerdictFromPolicies` | internal/ruletable/check.go:230-426 | What a role is allowed, from the policies alone: in error-free runs its verdict is ALLOW exactly when a rule of the most specific scope that decides allows and none of that scope denies |
| `RoleReadings.ReadingsCoincide` | internal/ruletable/check.go:245-275 | Whether a derived role is effective and whether its rules apply is the same question in strict mode, and in lenient mode where none of its variables is a CEL error |
| `RoleReadings.ReadingsCoincideAcross` | internal/ruletable/check.go:326-350 | ... also under the runtime objects of two scopes when the role does not read it |
| `RoleReadings.FailingVariableDivides` | internal/ruletable/check.go:612-633 | For every variable that is a CEL error and every expression with one truth while it is unset and another while it is null, the two differ in lenient mode |
| `RoleReadings.RuntimeDivides` | internal/ruletable/check.go:237-282 | For every expression that tells the two runtime objects apart they differ in either mode |
| `RoleReadings.EffectiveButUnused` | internal/ruletable/check.go:245-275 | A role with a missing attribute compared with null is reported as effective while its rules do not apply |
| `Scopes.ScopeParents` | internal/namer/namer.go:77-87 | The loop from the end of the scope yields its ancestors, longest first |
| `Scopes.ParentsExactly` | internal/namer/namer.go:77-87 | The ancestors are exactly the prefixes that end before a dot, and the root, in strictly shortening order |
| `Scopes.BuildFQNTree` | internal/namer/namer.go:58-75 | The tree of names is the scope and its ancestors applied to the unscoped name, for every scope that does not start with a dot |
| `Scopes.TreeIsChain` | internal/namer/namer.go:58-87 | ScopeParents and buildFQNTree give the same chain if and only if the scope does not start with a dot; otherwise the tree has the root twice |
| `Scopes.ScopeRoundTrip` | internal/namer/namer.go:89-92 | A scope is read back from a scoped name exactly when the unscoped name has no slash, or when there is no scope and the only slash ends the name |
| `Scopes.GetAllScopes` | internal/ruletable/ruletable.go:861-900 | The scopes to search are exactly the existing members of the chain, strictly shortening; strict search finds nothing when the requested scope does not exist and agrees with lenient search when it does |
| `TableManager.TrackerAdd` | internal/policy/scopeperms/scopeperms.go:82-105 | Adding a policy replaces the setting of its key and leaves every other key alone, also when the key moves to another scope |
| `TableManager.TrackerRemove` | internal/policy/scopeperms/scopeperms.go:107-120 | Removing a key forgets its setting and no other |
| `TableManager.NoEmptyScope` | internal/policy/scopeperms/scopeperms.go:107-120 | A scope is forgotten with its last policy |
| `TableManager.WouldConflict` | internal/policy/scopeperms/scopeperms.go:124-146 | Reports a conflict exactly when a policy other than the two named has a different setting in the scope |
| `TableManager.HasConflicts` | internal/policy/scopeperms/scopeperms.go:153-194 | Reports exactly whether two policies of one scope disagree |
| `TableManager.RuleTable.IndexRules` | internal/ruletable/ruletable.go:810-847 | The loop over new rows: rows appended, scope sets, permissions and tracker updated as one update per policy; SettledIsOwn says which permissions these are |
| `TableManager.SettledIsOwn` | internal/policy/scopeperms/scopeperms.go:56-62 | Permissions are right exactly when every live policy with rows, role policies aside, has in its scope the permission it asks for, OVERRIDE_PARENT if it asks for none |
| `TableManager.RuleTable.IngestPolicy` | internal/ruletable/ruletable.go:792-808 | Adding a policy that is not live keeps the table consistent with the live policies plus this one; scope permissions stay right while policies agree |
| `TableManager.RuleTable.DeletePolicy` | internal/ruletable/manager.go:252-309 | Deleting a policy, live or not, keeps the table consistent with the live policies without it |
| `TableManager.AddedConsistent` | internal/ruletable/ruletable.go:829-839 | What adding keeps: each live policy's rows exactly as often as it has them, scopes with principal rows recorded and recorded scopes in use (the same for resources), permissions defined on exactly the scopes with a live resource or principal policy row |
| `TableManager.DeletedConsistent` | internal/ruletable/manager.go:267-302 | What deleting keeps: the same, with the permission of a scope dropped exactly when its last resource or principal policy row is gone |
| `TableManager.Manager.CheckPolicy` | internal/ruletable/manager.go:211-231 | A policy is accepted exactly when no other live policy of its scope, the replaced one aside, has a different setting |
| `TableManager.Manager.Build` | internal/ruletable/ruletable.go:656-682 | A fresh load holds exactly the loaded policies and is refused exactly when two of them disagree; otherwise every scope has the permission its policies ask for, OVERRIDE_PARENT if they ask for none |
| `TableManager.Manager.ProcessPolicyEvent` | internal/ruletable/manager.go:147-207 | One event with its loader answers, failures included, turns the live policies into those of the specification and keeps the table consistent with them |
| `TableManager.Manager.ReloadTable` | internal/ruletable/manager.go:105-123 | A successful reload takes over the fresh table and its permissions; a failed one keeps the old table and is recorded |
| `TableManager.Manager.OnStorageEvent` | internal/ruletable/manager.go:71-93 | After any sequence of events the table is consistent with the replayed live policies; every scope has the permission its policies ask for, OVERRIDE_PARENT if they ask for none, if the policies agreed throughout, and so it has after any events without dependents if it had before |
| `TableManager.RowsDetermined` | internal/ruletable/manager.go:147-207 | Two tables with the same live policies have the same rows, each as often |
| `TableManager.StepFollowsStore` | internal/ruletable/manager.go:147-207 | An event that tells of every changed policy, answered from the later store, turns a table in step with the earlier store into one in step with the later |
| `TableManager.Manager.IncrementalIsRebuild` | internal/ruletable/manager.go:147-207 | A manager that has handled any run of events, each complete and successful, and a table freshly loaded from the store as it then is have the same rows, each as often, the same metadata and permissions for the same scopes; the same permissions if the policies agreed throughout |
| `TableManager.StepAgrees` | internal/ruletable/manager.go:159-178 | An event without dependents keeps all policies of a scope in agreement on their settings |
| `TableManager.UndependedAgree` | internal/ruletable/manager.go:159-178 | Policies that agree do so throughout any run of events without dependents |
| `TableManager.DependentsUnchecked` | internal/ruletable/manager.go:185-204 | Reloaded dependents are not checked for conflicts: an accepted event with any dependents keeps the policies in agreement exactly when each, at its turn, would have passed the check made for a changed policy |
| `TableManager.DependentConflicts` | internal/ruletable/manager.go:185-204 | For any two policies of one scope with different settings, a live map and an event whose dependent ends the agreement |
| `TableManager.DependentConflictExample` | internal/ruletable/manager.go:185-204 | Two such policies |
| `ReloadProtocol.StepKeeps` | internal/storage/reload.go:16-41 | Every step of every caller and flight keeps the invariant on entry, lock holder, forget times and call times |
| `ReloadProtocol.ReloadsExclude` | internal/storage/reload.go:27-36 | In every interleaving no two reloads run at once |
| `ReloadProtocol.ServedByLaterReload` | internal/storage/reload.go:21-26 | In every interleaving a caller that returned was served by a reload that started after its call |
| `ReloadProtocol.OnePending` | internal/storage/reload.go:28-33 | In every interleaving a flight is made and not yet forgotten exactly when it is the group's entry, so there is at most one |
| `ReloadProtocol.SharedUnlessForgotten` | internal/storage/reload.go:16-41 | Two calls share a flight if and only if no Forget came between them |
| `ReloadProtocol.NeverStuck` | internal/storage/reload.go:27-41 | While a caller waits, some step other than a new arrival can be taken |
| `ReloadProtocol.StepsShrink` | internal/storage/reload.go:27-41 | Each such step uses up one of finitely many |
| `ReloadProtocol.EveryCallReturns` | internal/storage/reload.go:16-41 | Every caller returns: without new arrivals a run takes at most the steps left, and where it can go no further, or has taken them all, every call has returned |
| `EventDelivery.WithoutNopEvents` | internal/storage/subscriptionmgr.go:128-148 | The filtered events are the others in order, none of them a Nop |
| `EventDelivery.StepKeeps` | internal/storage/subscriptionmgr.go:50-148 | Every step of notifiers, handler and subscribers keeps the invariant: nothing lost, duplicated or reordered between channel and handler |
| `EventDelivery.DeliveredInOrder` | internal/storage/subscriptionmgr.go:50-95 | In every run a subscriber has received exactly the stretch of the stream since it subscribed, in the order sent, without Nops; the channel never holds more than 32 batches |
| `EventDelivery.SentInOrder` | internal/storage/subscriptionmgr.go:75-95 | NotifySubscribers has sent its events in order, each once and no Nop, up to those it has left; when it returns it has sent all of them, or the manager has been stopped and it has sent the first ones |
| `EventDelivery.NothingToWaitFor` | internal/storage/subscriptionmgr.go:97-109 | NotifySubscribersAndWait returns at once exactly when it is called with nothing but Nops |
| `EventDelivery.EndIsFinal` | internal/storage/subscriptionmgr.go:50-64 | The handler ends only after the manager has been stopped, never within a batch, and hands out nothing any more |
| `EventDelivery.WaitedForDelivered` | internal/storage/subscriptionmgr.go:97-126 | When a waiting notifier returns nil its events are contiguous in the stream, and they and everything ahead of them have been received by every current subscriber since it subscribed |
| `EventDelivery.NeverStuck` | internal/storage/subscriptionmgr.go:50-64 | While the handler runs, a waiting notifier can go on or the handler can take a step, before its batch is in the channel and after |
| `EventDelivery.EveryWaiterReturns` | internal/storage/subscriptionmgr.go:97-126 | However many batches arrive behind it, fewer handler steps than were ahead of it are taken while a notifier waits for its batch and nobody subscribes; while the handler runs it waits only where the handler can take a step |
| `WorkerPool.CheckSerial` | internal/engine/engine.go:289-307 | The serial loop with its early return gives the outputs of all inputs in order, or fails |
| `WorkerPool.SerialExactly` | internal/engine/engine.go:289-307 | It fails exactly when some input fails, and otherwise output i is the result of input i |
| `WorkerPool.StepKeeps` | internal/engine/engine.go:110-144 | Every step of submitters, workers and collectors keeps each submitted item in exactly one place: with one worker, in the collector, or taken out |
| `WorkerPool.WorkersNeverBlock` | internal/engine/engine.go:123-126 | In every run a worker that has evaluated an item finds room in the collector, and its queue holds at most four items |
| `WorkerPool.TurnsTaken` | internal/engine/engine.go:133-143 | In every run the input picked for after n others, of whatever batch, goes to the worker n + 1 further on, counted in 64 bits |
| `WorkerPool.ParallelIsSerial` | internal/engine/engine.go:309-338 | A parallel batch that ends fails if and only if the serial check fails, and otherwise returns the same outputs at the same positions |
| `WorkerPool.NeverStuck` | internal/engine/engine.go:309-338 | While a batch is running some step other than a new call can be taken |
| `WorkerPool.StepsShrink` | internal/engine/engine.go:309-338 | Each such step, restarts included, uses up some of a finite measure |
| `WorkerPool.EveryBatchEnds` | internal/engine/engine.go:309-338 | Every batch ends: without new calls a run is no longer than the measure, and where it can go no further no batch is running |
| `AuthzenBatch.MergeAll` | internal/svc/authzen_svc.go:136-170 | Every evaluation has its own subject, resource, action and context where it has them and the default ones otherwise; the batch fails exactly when the auxiliary data of some context cannot be extracted |
| `AuthzenBatch.MergedExactly` | internal/svc/authzen_svc.go:342-347 | There is exactly one such evaluation |
| `AuthzenBatch.ValidatedExactly` | api/public/authzen/authorization/v1/evaluation.proto:211-226 | Requests are valid exactly when every evaluation has a subject, a resource and an action, of its own or by default |
| `AuthzenBatch.GroupBy` | internal/svc/authzen_svc.go:178-185 | Grouping keeps every member in the group of its key, in the order of the batch |
| `AuthzenBatch.BuildInputs` | internal/svc/authzen_svc.go:193-247 | In any order of the groups, every evaluation is mapped to an input that asks its question, nothing else is asked, and it fails exactly on the two limits |
| `AuthzenBatch.CheckGroup` | internal/svc/authzen_svc.go:190-281 | One group fails exactly on a limit or an engine failure; otherwise its own slots and no others are filled with the answers to their questions |
| `AuthzenBatch.CheckAll` | internal/svc/authzen_svc.go:178-281 | Under any order of iteration over the groups every slot is filled with its decision, or the batch fails for some group |
| `AuthzenBatch.ShortCircuit` | internal/svc/authzen_svc.go:282-289 | All decisions, or exactly the prefix that ends at the first permit, or at the first deny, as the semantics asks |
| `AuthzenBatch.AccessEvaluationBatch` | internal/svc/authzen_svc.go:110-293 | When the batch fails, exactly, and which decisions it otherwise returns; where ids and hashes identify what they stand for, each is what the engine decides for its own evaluation completed with the defaults |
| `AuthzenBatch.OwnDecisions` | internal/svc/authzen_svc.go:172-185 | When equal ids mean equal subjects and resources and hashes do not collide, every slot has the decision of its own merged evaluation |
| `AuthzenBatch.OwnDecisionExactly` | internal/svc/authzen_svc.go:239-245 | A slot has the decision of its own evaluation under every policy if and only if nothing different stands in for it |
| `AuthzenBatch.FirstSubjectWins` | internal/svc/authzen_svc.go:178-185 | Two different subjects with the same id are both asked as the first of them |
| `Variables.Definitions.Resolve` | internal/compile/variables.go:148-214 | Reports an error exactly on a name defined more than once, a reference to an undefined name or a variable that refers to itself |
| `Variables.Definitions.UseVariable` | internal/compile/variables.go:263-279 | Terminates on every graph and marks the variable, everything it refers to, directly or not, and nothing else, with all their constants |
| `Variables.Definitions.UseConstants` | internal/compile/constants.go:179-188 | Marks the defined constants and reports exactly the undefined ones |
| `Variables.Definitions.Use` | internal/compile/variables.go:251-261 | After each compiled condition the used variables are exactly the reference closure of all conditions so far, and the used constants exactly those that they mention |
| `Variables.SortableExactly` | internal/compile/variables.go:289-297 | The definitions can be sorted with references first exactly when they do not refer to each other in a circle |
| `Variables.CycleExactly` | internal/compile/variables.go:198-211 | A circle is a list of variables each of which mentions the next, another one, and the last the first; a variable that mentions itself is no circle but does not resolve |
| `Variables.Definitions.Used` | internal/compile/variables.go:281-312 | An error is reported exactly for definitions that refer to each other in a circle, and nothing is listed; otherwise the list is the used part of the order |
| `Variables.ListedExactly` | internal/compile/variables.go:299-309 | The list has exactly the used names, each once and with its own expression |
| `Variables.ReferencesFirst` | internal/compile/variables.go:289-309 | Every referenced variable stands before its referrer in the used list |
| `Variables.UsedListSolves` | internal/ruletable/check.go:612-633 | Evaluating the used list in order gives every used variable the value of its own definition in terms of the others, and fails exactly when one of them fails hard there |
| `Variables.SolutionUnique` | internal/ruletable/check.go:612-633 | These equations have at most one solution, so that it is the recursive meaning of the definitions |
| `Variables.PruningPreserves` | internal/compile/variables.go:263-312 | A compiled condition has the same outcome with the used variables and constants as with all of them, and the shorter list fails exactly when a used variable fails hard |
| `Variables.UsedProgramsSolve` | internal/ruletable/check.go:651-677 | Running the programs that rules run solves the same equations, with CEL errors unset in either mode, and fails exactly when a used variable fails hard |
| `Variables.PrunedProgramsPreserve` | internal/ruletable/check.go:651-677 | A condition of a rule has the same outcome with the programs of the used variables as with all of them |
| `RandPool.NearestPowerOfTwo` | internal/audit/id.go:123-134 | For 1 <= v <= 2^63 the least power of two not below v; zero for all other 64-bit words |
| `RandPool.MaskIsModulo` | internal/audit/id.go:114-117 | Masking with size - 1 is the remainder by a size that is a power of two |
| `RandPool.SlotsDistinct` | internal/audit/id.go:114-118 | Among size consecutive calls no two select the same slot, also across the wrap-around of the counter |
| `RandPool.SlotsCovered` | internal/audit/id.go:114-118 | Among size consecutive calls every slot is selected |
| `RandPool.Pool.Get` | internal/audit/id.go:114-118 | Advances the 64-bit counter and returns the source of its slot, always in range |
| `RandPool.Pool.constructor` | internal/audit/id.go:99-112 | As many sources as the size rounded up; an empty pool exactly for size zero and above 2^63 |

## Left out

- CEL parsing, checking and evaluation, and the partial evaluator of the planner: parameters of the model.
- Check outputs, traces, audit trails, reported policy names, matched scopes and schema validation: the theorems are about effects and filters.
- The failure of a plan on an operator that the planner does not know: the plan theorems are about conditions without one.
- The strict-mode abort of a plan (an evaluation error denies the action): the plan theorems are about resources where every condition is total.
- The bitmap index and the denials it makes up for role policies, `AddParentRoles`, and the rows of role policies: queries are given by their matching rows and role denials are a parameter.
- `ScopeParentRoles`, derived role maps, schemas and program caches of the table under events: the rebuild theorem is about rows, metadata and scope permissions. Parent roles are recorded by scope and role without the version, so that deleting one version of a role policy drops those of the other.
- `Meta` and the tracker are keyed by names instead of hashed module IDs: hash collisions are not modelled.
- A rule table bundle that replaces the table wholesale (`RuleTableStore`): only reloads through the policy loader are modelled.
- The topological sort of variables is given by its contract; so are the answers of the policy loader, which are keyed by module.
- Reading the references of an expression off its syntax tree: an expression comes with the names it mentions.
- Cancellation of parallel checks; the error that is returned when several inputs fail.
- Response contexts and request IDs of AuthZEN batches, and the single evaluation endpoint.
- The order in which notifiers get into a full channel: that a notifier which still offers its batch gets its turn is left to the Go runtime.
- The locks around random sources and the bytes they produce.
- Schema resolution, JWT extraction, servers, storage drivers, telemetry, the command line tools and the inspection of policies.
