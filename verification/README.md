# Forward-chaining knowledge base with truth maintenance, in Dafny

This project models `student_code.py`, a small deductive knowledge base.

- **Facts and rules.** A fact is a statement. A rule is a conjunction of statements (its left-hand side) and a conclusion.
- **Insertion.** Inserting a new fact runs one forward-chaining step against every stored rule. Inserting a new rule runs one step against every stored fact. Whatever a step derives is inserted in turn. Re-inserting a structurally equal item merges into the stored record instead.
- **Forward-chaining step.** A step unifies the fact with the rule's first conjunct. A one-conjunct rule yields a derived fact. A longer rule yields the narrowed rule: the remaining conjuncts and the conclusion, instantiated.
- **Provenance.** Every derived record remembers its derivation as a (fact, rule) justification. Fact and rule in turn list the records they helped derive.
- **Retraction.** Retracting a fact that still has a justification only clears its asserted flag. Otherwise the fact is removed, and removal cascades through everything left without support.
- **Queries.** A query unifies a pattern with every stored fact, in storage order.

The model is an arena of records addressed by handles (`Records`):
- `facts` and `rules` keep storage order.
- Justifications and back-references are handles.
- Handles are never reused.

The invariant `Records.Inv` says:
- the lists enumerate exactly the stored records;
- no two records are structurally equal;
- every record is asserted or justified;
- every justification names a stored fact and a stored rule;
- every justification is mirrored by back-references.

`Soundness.Sound` adds soundness of provenance: every justification a record carries names a stored fact and a stored rule whose forward-chaining step derives exactly that record. Assertion and retraction both keep it (`Soundness.AssertSound`, `Soundness.RetractSound`).

Insertion and forward chaining (`Chaining`) are four mutually recursive functions: `Add`, `InferFact`, `InferRule` and `FcInfer`. They loop by index over the live list, so records appended during the loop are visited too, as Python's list iteration does. A fuel budget counts forward-chaining steps, because the source saturates without bound. During a nested insertion, the justification of the record being derived is not yet mirrored by back-references: the source registers them only after `kb_add` returns. A ghost set of pending pairs accounts for that.

`Scenarios` replays a small run with explicit fuel: two `person` facts and the rule ((?x person)) -> (?x mortal), asserted in that order, end in a knowledge base given record by record.

Retraction (`Retraction`) follows the intended cascade with a worklist whose recursion decreases the set of stored handles. Where the code departs from that intent, `RetractionAsWritten` and `Inference.NarrowAsWritten` model it as written (see Findings).

The unifier is an assumption. `match`, `instantiate` and `factq` come from `util`, which is not part of this model. `Logic` supplies a minimal flat unifier: equal predicates and arities, position-wise terms, consistent variable bindings. It is proved sound and complete against ground statements.

The comparison at student_code.py:268 goes through the equality of the unseen bindings class. `Inference.Guard` keeps both readings:
- **Identity** (`ByIdentity`): the guard never blocks.
- **Value** (`ByValue`): the guard blocks every step whose unification binds nothing.

## Model

| member | source | states |
|---|---|---|
| Logic.Instantiate | student_code.py:276 | Substitution keeps the predicate, the arity, every constant and every unbound variable, and replaces every bound variable by its binding. |
| Logic.Match | student_code.py:267 | Unification succeeds only between statements with the same predicate and arity. |
| Logic.MatchSound | student_code.py:109 | Against a ground statement, the bindings returned turn the pattern into that statement. |
| Logic.MatchComplete | student_code.py:109 | Against a ground statement, unification succeeds whenever some substitution makes the pattern equal to it. |
| Logic.MatchSymmetric | student_code.py:267 | With one side ground, the order of the two statements does not change the result. |
| Logic.MatchSelf | student_code.py:268 | A statement unifies with itself and binds nothing. |
| Records.Search | student_code.py:32-34 | Returns the first handle of the list whose record holds the item; None only when no listed record does. |
| Records.GetFact | student_code.py:22-34 | Finds a stored fact exactly when some stored record holds that fact, and returns a handle from the fact list. |
| Records.GetRule | student_code.py:36-48 | Finds a stored rule exactly when some stored record holds that rule, and returns a handle from the rule list. |
| Records.Locate | student_code.py:59 | The membership test of kb_add: Some exactly when a structurally equal item is stored, and the handle holds it. |
| Inference.FiresByValue | student_code.py:268 | Under the by-value reading, the guard lets a step through exactly when its bindings are non-empty. |
| Inference.Narrow | student_code.py:270-281 | The narrowed rule has one conjunct fewer; conjunct k is conjunct k+1 instantiated, in order; the conclusion is instantiated. |
| Inference.Derive | student_code.py:267-298 | A step derives something exactly when the fact unifies with the first conjunct and the guard lets the bindings through; a derivation is well formed, a fact exactly for one-conjunct rules, else a rule one conjunct shorter. |
| Inference.DeriveSound | student_code.py:267-292 | On a ground fact, the bindings used turn the first conjunct into the fact, and the result is the instantiated conclusion or the narrowed rule. |
| Inference.DeriveComplete | student_code.py:267-269 | Under the identity reading, a ground fact that instantiates the first conjunct always fires the rule. |
| Inference.GroundConjunctBlockedByValue | student_code.py:268 | Under the by-value reading, a rule whose first conjunct is ground never fires on a ground fact. |
| Inference.NarrowAsWritten | student_code.py:274-277 | As written: the kept conjuncts are exactly those different from the first, later repeats included. |
| Inference.NarrowAsWrittenEmptiesRepeatedConjunct | student_code.py:274-277 | As written, the two-conjunct rule (p, p) is narrowed to an empty conjunction. |
| Inference.NarrowAsWrittenAgrees | student_code.py:274-277 | When the first conjunct is not repeated, the code's filter equals dropping the first conjunct. |
| Chaining.Insert | student_code.py:58-60 | A new item goes under the next fresh handle with the given flag and justifications and no dependents, at the end of the list of its kind; the other list and every other record are unchanged. |
| Chaining.Merge | student_code.py:63-70 | Re-inserting a stored item changes only its record: with justifications they are appended in order and the flag is kept; without, the record becomes asserted and keeps its justifications. Lists and handles are unchanged. |
| Chaining.Register | student_code.py:287-288 | After a derivation, the derived record is listed among the dependents of its fact and of its rule, under the list of its kind; no record's content, flag or justifications change, and records other than the fact and the rule are untouched. |
| Chaining.Add | student_code.py:50-83 | A stored equal item is merged without spending fuel. On success the invariant holds with this insertion's justifications pending. The item is stored under the handle it had, or the next fresh one, and its record holds every given justification. The knowledge base only grows, starting from the plain insertion when the item is new. |
| Chaining.InferFact | student_code.py:61-62 | Running the steps of a new fact against the rules keeps the invariant and only grows the knowledge base. |
| Chaining.InferRule | student_code.py:74-75 | Running the steps of every fact against a new rule keeps the invariant and only grows the knowledge base. |
| Chaining.FcInfer | student_code.py:251-298 | A step spends fuel, keeps the invariant and only grows the knowledge base; when it derives something, that item is stored with the justification (fact, rule) and registered under both; when it derives nothing, it succeeds with the knowledge base unchanged at the cost of one unit. |
| Chaining.Fire | student_code.py:283-298 | Inserting a derived item and registering it keeps the invariant; a new record is unasserted with (fact, rule) as its first justification. |
| Chaining.Assert | student_code.py:85-92 | Assertion keeps the invariant, never runs out of fuel on a stored item, and leaves the item stored. |
| ChainingProps.AddAppendsNew | student_code.py:58-75 | A new item goes under the next fresh handle at the end of the list of its kind; earlier entries keep their order; the flag is as given and the justifications are kept. |
| ChainingProps.AddMergesExisting | student_code.py:63-83 | Re-adding a stored item keeps both lists and the set of records; without justifications the record becomes asserted, with them they are appended; nothing else changes. |
| ChainingProps.AssertMarksAsserted | student_code.py:85-92 | After an assertion the item is stored and asserted, whether it was new or merged. |
| ChainingProps.FcInferNoMatch | student_code.py:267-269 | A fact that does not unify with the first conjunct leaves the knowledge base unchanged. |
| ChainingProps.FcInferRecords | student_code.py:270-298 | A firing step stores the instantiated conclusion (one conjunct) or the narrowed rule, carrying (fact, rule), registered in both dependents lists; a new record is unasserted with that justification first. |
| ChainingProps.AddNew | student_code.py:58-75 | A new item is stored under the next handle, the list of the other kind is unchanged, and the insertion continues as the run of the item's steps against the records of the other kind. |
| ChainingProps.InferFactSaturates | student_code.py:61-62 | When the run of a fact's steps succeeds, every rule from the given index on has been stepped: whatever the step derives is stored with the justification (fact, rule). |
| ChainingProps.InferRuleSaturates | student_code.py:74-75 | When the run of a rule's steps succeeds, every fact from the given index on has been stepped: whatever the step derives is stored with the justification (fact, rule). |
| ChainingProps.AddFactSaturates | student_code.py:58-62 | After a new fact is added successfully, for every rule stored before, whatever the step of the fact against it derives is stored with the justification naming both. |
| ChainingProps.AddRuleSaturates | student_code.py:71-75 | After a new rule is added successfully, for every fact stored before, whatever the step of that fact against the rule derives is stored with the justification naming both. |
| ChainingProps.InferFactQuiet | student_code.py:61-62 | When no remaining rule fires on the fact and the fuel covers one unit per rule, the run succeeds, changes nothing and spends exactly that. |
| ChainingProps.InferRuleQuiet | student_code.py:74-75 | When the rule fires on no remaining fact and the fuel covers one unit per fact, the run succeeds, changes nothing and spends exactly that. |
| ChainingProps.AddFactQuiet | student_code.py:58-62 | A new fact that fires no stored rule, given one unit of fuel per rule, is added successfully with exactly the plain insertion as result. |
| ChainingProps.AddRuleQuiet | student_code.py:71-75 | A new rule that fires on no stored fact, given one unit of fuel per fact, is added successfully with exactly the plain insertion as result. |
| ChainingProps.NarrowExample | student_code.py:270-288 | From (inst3 person), the rule ((?x person), (?x adult)) -> (?x votes) narrows to ((inst3 adult)) -> (inst3 votes). |
| Scenarios.RuleFiresOnPerson | student_code.py:267-269 | The rule ((?x person)) -> (?x mortal) fires on (n person) under either reading of the guard and derives (n mortal). |
| Scenarios.FirstStep | student_code.py:251-298 | With the two facts and the rule stored, the step of fact 0 against the rule stores (inst1 mortal) under handle 3 with the justification (0, 2) and registers it under both. |
| Scenarios.InvFirstDerived | student_code.py:251-298 | The state after the first step satisfies the invariant. |
| Scenarios.SecondStep | student_code.py:251-298 | From that state, the step of fact 1 against the rule stores (inst2 mortal) under handle 4 with the justification (1, 2) and registers it under both. |
| Scenarios.InvSecondDerived | student_code.py:251-298 | The state after the second step satisfies the invariant. |
| Scenarios.FirstRound | student_code.py:74-75 | The loop of the rule over the facts, at fact 0, continues at fact 1 from the state after the first step, two units of fuel spent. |
| Scenarios.SecondRound | student_code.py:74-75 | At fact 1, it continues at fact 2 from the state after the second step, two more units spent. |
| Scenarios.LastSteps | student_code.py:74-75 | From the state after the second step, the rule then visits the two derived facts, which it does not fire on, and stops with the knowledge base unchanged. |
| Scenarios.AssertRuleChains | student_code.py:71-75 | Asserting the rule after the two facts with six units of fuel succeeds and yields exactly the end state: the facts and the rule asserted and listing their dependents, each `mortal` fact unasserted with its one justification. |
| Scenarios.MortalScenario | student_code.py:85-92 | The three assertions in order, from an empty knowledge base, succeed and end in that state. |
| Retraction.Strip | student_code.py:206-218 | Keeps exactly the justifications that do not mention the removed record. |
| Retraction.StripAppend | student_code.py:206-218 | Stripping distributes over concatenation, so the kept justifications stay in their order and with their repeats. |
| Retraction.WithoutAppend | student_code.py:228-229 | Removing a handle from a list distributes over concatenation, so the other handles stay in their order and with their repeats. |
| Retraction.Remove | student_code.py:206-229 | Removing a record deletes exactly its handle from the store and from both lists; every other record keeps its content and flag, and exactly its justifications that do not mention the removed record. |
| Retraction.Unassert | student_code.py:237-241 | Clearing the flag changes only that record's flag: its content and justifications, every other record and both lists are unchanged. |
| Retraction.RemoveTouchesOnlyDependents | student_code.py:206-218 | With back-references in place, removing a record changes no record outside its dependents lists. |
| Retraction.Cascade | student_code.py:204-229 | The result satisfies the full invariant and only shrinks the input. Surviving records keep exactly the justifications whose fact and rule survive. Every removed record was unasserted and has no surviving justification. |
| Soundness.InsertSound | student_code.py:58-60 | Inserting an item keeps provenance sound when every justification given derives that item. |
| Soundness.MergeSound | student_code.py:63-70 | Merging justifications into a stored record keeps provenance sound when each of them derives the stored item. |
| Soundness.RegisterSound | student_code.py:287-288 | Registering a dependent keeps provenance sound. |
| Soundness.AddSound | student_code.py:50-83 | A successful kb_add keeps provenance sound when the knowledge base is sound and every justification given derives the item, through every nested derivation. |
| Soundness.InferFactSound | student_code.py:61-62 | A successful run of a fact's steps keeps provenance sound. |
| Soundness.InferRuleSound | student_code.py:74-75 | A successful run of the steps of the facts against a rule keeps provenance sound. |
| Soundness.FcInferSound | student_code.py:251-298 | A successful step keeps provenance sound. |
| Soundness.FireSound | student_code.py:283-298 | Inserting what the step derives with the justification (fact, rule) and registering it keeps provenance sound. |
| Soundness.AssertSound | student_code.py:85-92 | A successful assertion keeps provenance sound. |
| Soundness.RetractSound | student_code.py:191-245 | Retraction keeps provenance sound: every surviving justification still names a stored fact and rule whose step derives its record. |
| Retraction.Retract | student_code.py:191-245 | Rules and absent facts change nothing. A justified fact is only unasserted. An unsupported fact is unasserted and removed, and the cascade settles. The invariant holds afterwards. |
| RetractionProps.RetractKeepsAsserted | student_code.py:204-229 | No asserted record other than the retracted one is removed or unasserted. |
| RetractionProps.RetractFixpoint | student_code.py:204-229 | After retracting an unsupported fact, any other record survives exactly when it is asserted or keeps a justification whose fact and rule both survive. |
| RetractionProps.CascadeKeepsSelfSupporting | student_code.py:204-229 | The cascade removes no record of a set whose every record is asserted or keeps a justification with fact and rule in the set. |
| RetractionProps.RetractMinimal | student_code.py:204-245 | Retracting an unsupported fact keeps every such self-supporting set of other records; with RetractFixpoint, the survivors are the largest one. |
| RetractionProps.RetractKeepsSurvivingSupport | student_code.py:206-218 | A surviving record keeps its content and flag, and exactly its justifications whose fact and rule survive. |
| RetractionProps.RetractForgets | student_code.py:229 | After retracting an unsupported fact, looking it up finds nothing. |
| RetractionProps.RetractSupportedStays | student_code.py:237-239 | A justified fact stays under its handle with its justifications, unasserted. |
| RetractionProps.RetractIdempotent | student_code.py:231-245 | Retracting the same item twice is the same as retracting it once. |
| RetractionAsWritten.StripAsWritten | student_code.py:207-210 | As written: never keeps a justification the record did not have, and keeps every one whose fact differs. |
| RetractionAsWritten.StripAsWrittenSkipsSecond | student_code.py:207-210 | As written, the list [(1,2), (1,3)] keeps (1,3) when fact 1 is removed, where the intended strip keeps nothing. |
| RetractionAsWritten.DropRuleAsWritten | student_code.py:219-228 | As written: only the facts derived from the rule change. A fact is retracted exactly when it had justifications and all of them name the rule, whatever its flag. |
| RetractionAsWritten.DropRuleRetractsAssertedFact | student_code.py:222-227 | As written, a fact asserted by a caller and derived only from the removed rule is retracted. |
| RetractionAsWritten.DropRuleLeavesDanglingJustification | student_code.py:219-228 | As written, a rule derived from the removed rule stays stored with a justification naming a record no longer stored. |
| RetractionAsWritten.CascadeKeepsAssertedFact | student_code.py:222-227 | From the same state, the cascade removes the rule and keeps the asserted fact, asserted. |
| RetractionAsWritten.CascadeRemovesDerivedRule | student_code.py:219-228 | From the same state, the cascade removes the rule and the rule it derived. |
| Query.AnswersFrom | student_code.py:108-111 | Every answer carries the unifier's bindings for a listed fact; every listed fact that unifies with the query has an answer; when the list has no repeats, no two answers come from the same fact. |
| Query.AnswersInOrder | student_code.py:108-111 | Answers follow storage order: an earlier answer comes from an earlier fact. |
| Query.Scan | student_code.py:108-111 | The loop over the facts produces exactly the answers of the facts in order. |
| Query.Ask | student_code.py:94-117 | A rule as query has no answers. Otherwise the answers are sound (the fact is stored and the bindings are the unifier's), complete (every stored fact that unifies is answered) and at most one per stored fact. |
| Query.AnswerSound | student_code.py:109-111 | An answer's bindings turn the query into its ground fact. |
| Query.AnswerComplete | student_code.py:109-111 | A ground fact that some substitution makes equal to the query is answered. |
| Query.Explain | student_code.py:178-187 | The not-found message for the item's kind exactly when no equal item is stored; None for a stored item. |

## Left out

- Diagnostics through `printv` and `print` (student_code.py:57, 91, 103, 116, 200, 262): console output only.
- `__repr__` and `__str__` (student_code.py:13-20): their formatting relies on `str()` from `logical_classes`, which is not part of this model.
- The rendering of kb_explain (student_code.py:133-174) is left out, for two reasons:
  - It builds text from `str()` of statements, facts and rules, defined in `logical_classes`.
  - Its entry points at student_code.py:180 and 185 pass a list index rather than the record, so it never renders anything.
  - `Query.Explain` models what the entry points return.
- The unseen helpers: `util` (`match`, `instantiate`, `factq`) and `logical_classes` (the equality of facts and rules, `ListOfBindings`). These are replaced as follows:
  - The unifier is the assumed flat unifier of `Logic`.
  - Equality is structural equality of `Records.Item`.
  - `factq` is "is a fact".
  - A list of bindings is a sequence of `Query.Answer`.
- Two readings of the source are assumptions, not modelled facts:
  - `if binding:` (student_code.py:110) is read as "the unification succeeded".
  - The flag of a new item that a caller asserts is taken as asserted. That flag is set by constructors in `logical_classes`.
- Chaining.Add: says nothing about a run that exhausts its fuel (`OutOfFuel`), because the source saturates without bound and a rule set that derives forever has no result to describe; the same holds for Chaining.InferFact, Chaining.InferRule, Chaining.FcInfer, Chaining.Fire and Chaining.Assert.
  - Success is proved where the fuel can be named: a step that derives nothing (`Chaining.FcInfer`), an insertion that fires nothing (`ChainingProps.AddFactQuiet`, `ChainingProps.AddRuleQuiet`), and the worked run of `Scenarios`.
  - No lemma states that more fuel never changes a successful result.
- Python object aliasing at student_code.py:287-288 and 297-298 is not reproduced, to keep the support graph free of objects that are not stored.
  - The source registers the freshly built object even when kb_add merged it into an existing record. That object is an unstored twin of the stored record, and only the stored record receives the new pair.
  - Retracting the fact or rule later walks the twin: the pair is removed from the twin's list (student_code.py:207-210), and `kb_retract(twin)` (line 213) finds the stored record, which still has pairs, and clears its asserted flag (line 238). The stored record keeps the pair naming the removed record.
  - The model registers the stored record's handle, so retraction strips the pair from the stored record itself.
- Query.Ask: returns no answers for a rule given as query. The source reaches the invalid branch, whose message reads `fact.statement` (student_code.py:116); whether a `Rule` has that attribute depends on `logical_classes`, which is not part of this model, and without it the call raises instead of returning.
- Records.WellFormedItem: every operation requires a rule to have at least one conjunct. fc_infer reads `rule.lhs[0]` (student_code.py:267), which raises for an empty left-hand side; the model excludes such rules instead of modelling the exception. The narrowing defect under Findings is how the source itself can build one.
- Chaining.FcInfer: narrows a rule with `Inference.Narrow`, which drops only the first conjunct, not with the filter of student_code.py:275, which drops every copy of it. The filter as written is `Inference.NarrowAsWritten`; see Findings.
- The `[None, None]` check at student_code.py:242-244 is left out: in the model a list of dependents never holds that value, so the check has no effect.
- The mutable default arguments of the constructor (student_code.py:8) and the `read` and `copy` imports (student_code.py:1) are left out; the model starts from `Records.EmptyKB`.
- Retraction.Cascade: removes records in worklist order, not in the source's depth-first recursive order.
  - The contract characterises the outcome: `Inv`, `Shrinks` and `Settled`. It does not describe the intermediate states.
  - Removals are compared by handle; the source compares facts structurally, which is the same under `NoDuplicates`.
  - `Strip` drops a justification that mentions the removed record on either side. The source looks at the fact side for a fact's dependents and the rule side for a rule's. Under `SupportsStored` the two agree.
- RetractionAsWritten.DropRuleAsWritten: strips with a filter.
  - The loop at student_code.py:223-225 has the same delete-while-iterating defect as the one `StripAsWritten` models at lines 207-210 (and 215-218). That defect is modelled once, not again here.
  - Only the facts the clean-up retracts are returned, not the cascades those retractions start.

## Findings

| source | as written | input that shows it | evidently intended | confidence | as-written member | corrected member |
|---|---|---|---|---|---|---|
| student_code.py:274-277 | keeps every conjunct different from `lhs[0]`, so later copies of the first conjunct are dropped too | rule ((?x p), (?x p)) -> (?x q): the narrowed rule has no conjuncts, and the next step reads `lhs[0]` of an empty list | drop only the first conjunct | not executed | Inference.NarrowAsWritten (with Inference.NarrowAsWrittenEmptiesRepeatedConjunct) | Inference.Narrow |
| student_code.py:207-210 | deletes from `supported_by` while iterating over it, so the element after each deletion is skipped | `supported_by` = [(1,2), (1,3)] while retracting fact 1: (1,3) survives and names a removed fact | remove every pair whose fact is the retracted one | not executed | RetractionAsWritten.StripAsWritten (with RetractionAsWritten.StripAsWrittenSkipsSecond) | Retraction.Strip |
| student_code.py:222-227 | retracts a fact of a removed rule when its justifications run out, without checking `asserted` | `RetractionAsWritten.DerivedFactKB`: fact 2 asserted and derived only from rule 1 is retracted | drop the pair naming the rule but keep a fact a caller asserted | not executed | RetractionAsWritten.DropRuleAsWritten (with RetractionAsWritten.DropRuleRetractsAssertedFact) | Retraction.Cascade (with RetractionAsWritten.CascadeKeepsAssertedFact) |
| student_code.py:219-228 | never visits `supports_rules` of the removed rule | `RetractionAsWritten.DerivedRuleKB`: rule 2, derived from fact 0 and rule 1, keeps the pair (0,1) after rule 1 is removed | strip the pair and remove rule 2 once it is unsupported | not executed | RetractionAsWritten.DropRuleAsWritten (with RetractionAsWritten.DropRuleLeavesDanglingJustification) | Retraction.Cascade (with RetractionAsWritten.CascadeRemovesDerivedRule) |
