# Mouseion: what its services keep

A Dafny model of the parts of Mouseion, a personal paper library, whose state is hardest
to keep right, with proofs of what they keep.

- **The topic forest.** `Taxonomy` gives every edit as a function on the two tables,
  `TaxonomyEdits`, `TaxonomyOthers` and `TaxonomyBatches` prove what the edits keep,
  `TaxonomyOutcomes` and `TaxonomyDecisions` what each leaves row by row and when it is
  refused, `TopicStore` is the service that rewrites the rows in place and is proved equal
  to those functions, `TopicWalks` and `TopicTree` are the reads. `Forest` holds the theory of parent
  pointers, for cyclic and acyclic tables alike.
- **The examiner.** `ExamSchemas` are the validators and `ExamAcceptance` exactly what they
  accept, `LlmRetry` and `LlmStream` the model calls, `ExamSession` the session on values,
  `ExamOutcomes` what each call leaves in its row and when it fails, `ExamStore` the service
  that rewrites session rows, `ExamRuns` what holds over whole exams. The model's replies are
  arbitrary.
- **The ingest job.** `Ingest` is the pipeline on values, in which any collaborator and any
  write may fail; `IngestRuns`, `IngestFootprint` and `IngestCounts` prove what one attempt
  keeps, how far it reaches and how it is counted, `IngestQueue` what holds over
  any run of the library with its task queue, `IngestResume` that resuming loses nothing
  once extraction is marked, `IngestWindows` and `IngestMarks` exactly when resuming loses
  nothing at all, and `IngestStore` is the worker, proved to do exactly what the pipeline on
  values says.
- **Retrieval.** `Fusion`, `Grounding`, `GroundingTail` and `History`, over exact rational scores.
- **Derived structures.** `FtsIndex` (six triggers against an index computed afresh),
  `SectionForest`, `PageRanges`, `SectionSiblings` and `SectionTree` (the section tree built by a stack),
  `TreeDocument` (its stored form), `FtsQuery` and `FtsTyped` (the search expression, a parser
  for it, and what comes of what is typed).

`Text`, `Sorting` and `Wrappers` are shared helpers. Where a service changes rows or objects
step by step the module has a class or methods with loops, each proved against a function
or predicate on values; the theorems are stated about those. `dafny verify dfyconfig.toml`
checks the whole project.

## Where the code differs from what it says

- `backend/src/mouseion/services/jobs.py:9-11` says a failed job resumes from its last
  completed step. `IngestMarks.ResumeByMarks` says when the library ends as if nothing
  had failed, for every job not yet started and any number of failures, and
  `IngestWindows.OneFailureExactly` after one. There are two windows. A failure between creating the
  paper row and marking extraction makes the retry take its own paper for a duplicate and
  end done with no text (`IngestRuns.SelfDuplicate`). A failure between marking the download
  and creating that row loses the arXiv metadata, which shows exactly when the model's
  answers do not make up for it (`NothingLostMeaning`, and `TitleReplaced` for an input).
- A queue entry is tried once and the retry route takes failed jobs only, so a job that is
  neither failed nor in the queue never moves again (`IngestQueue.UnmovedExactly`).
  `IngestQueue.LostExactly` says which steps leave an unfinished job so: the process dies
  between writing the row and handing it to the queue, or during an attempt, even before its
  first write, or counting the attempt raises, which happens outside the handler.
- The length checks in `backend/src/mouseion/services/schemas.py` come before the tidying, so a text of blanks is
  accepted and stored empty. `ExamRuns.StateReloads` and `VerdictReloads` say that this is
  exactly what does not survive a reload, and `BlankPlanEndsExam` what it does to an exam;
  `BlankPlanExam` and `BlankVerdictLost` are inputs.
- `allowed_sections` is neither tidied nor limited in length while cited labels are:
  `ExamSchemas.PlanCitesExactly`, `MisconceptionCitesExactly` and `RereadCitesExactly` say
  which labels can be cited, `SomePlanAcceptedExactly` when any plan can be accepted at all,
  and `DoubledBlankHeading` gives a tree for which none ever is.
- `backend/src/mouseion/services/qa.py:391-392` says that only the tail of the last paper is
  trimmed. A section cut where its text has a long run of blanks gives the blanks' room back,
  and a later section is kept after it: `GroundingTail.OnlyTailExactly` and
  `GatheredTailExactly` say exactly when, and `SectionCutInTheMiddle` is an input.
- The re-parent route checks and writes outside a transaction:
  `TaxonomyBatches.InterleavedReparents` says exactly which interleavings make a cycle.
- The topic-scope query stops at 32 levels, the walk does not: `TopicWalks.ScopeAgreesExactly`
  and `DeepTopicMissed`.
- `backend/src/mouseion/services/tree_indexer.py:209` says a node ends before its next
  sibling starts. The code closes it before the next node of any level in page order, and
  the model does the same. `SectionSiblings.SiblingExactly` and `SiblingInOrderExactly` say
  exactly when the two agree, and `ChapterCutShort` is an input at which they do not.
- `get_or_create_topic` given the id about to be allocated as parent makes a topic its own
  parent; only the callers prevent it (`TaxonomyEdits.GetOrCreateValidExactly`, `FirstTopicUnderItself`).

## Model

| member | source | states |
|---|---|---|
| Text.TidyFacts | backend/src/mouseion/services/taxonomy.py:30-33 | a normalized name has single plain spaces and none at its ends, keeps every non-blank character in order, and is empty exactly for blank input |
| Text.TidyFixed | backend/src/mouseion/services/taxonomy.py:30-33 | normalizing a normalized name changes nothing |
| Forest.MovedBelow | backend/src/mouseion/services/taxonomy.py:363-376 | who is below whom after one parent pointer of an acyclic table is rewritten |
| Forest.MovedAcyclic | backend/src/mouseion/services/taxonomy.py:363-376 | rewriting one parent pointer keeps the table acyclic exactly when the new parent is not below the moved topic |
| Forest.RedirectedBelow | backend/src/mouseion/services/taxonomy.py:407-447 | who is below whom after a topic is taken out and its children are handed to another |
| Forest.RedirectedAcyclic | backend/src/mouseion/services/taxonomy.py:407-447 | taking a topic out and handing its children to one not below it keeps the table acyclic |
| TaxonomyEdits.GetOrCreateValidExactly | backend/src/mouseion/services/taxonomy.py:62-86 | creation keeps the library sound except exactly when the name is new and not blank and the parent is the very id the row is about to get, which the schema alone would accept |
| TaxonomyEdits.FirstTopicUnderItself | backend/src/mouseion/services/taxonomy.py:62-86 | the first topic of an empty library created under id 1 is its own parent |
| TaxonomyEdits.CreateValid | backend/src/mouseion/services/taxonomy.py:62-86 | creation under a parent that exists, or none, keeps the library sound |
| TaxonomyEdits.RenameValid | backend/src/mouseion/services/taxonomy.py:348-360 | renaming keeps the library sound; it is refused for a conflict only when another topic has the name in any ASCII case, and a change of case alone is accepted |
| TaxonomyEdits.ReparentValid | backend/src/mouseion/services/taxonomy.py:363-376 | re-parenting keeps the library sound |
| TaxonomyEdits.ReparentRefusesExactlyCycles | backend/src/mouseion/services/taxonomy.py:363-376 | re-parenting to an existing topic, or to none, is refused exactly when carrying it out would make a cycle |
| TaxonomyEdits.DeleteValid | backend/src/mouseion/services/taxonomy.py:429-446 | deletion keeps the library sound |
| TaxonomyEdits.MergeValid | backend/src/mouseion/services/taxonomy.py:386-426 | a merge keeps the library sound, also when the target lies below the source |
| TaxonomyEdits.SplitValid | backend/src/mouseion/services/taxonomy.py:449-487 | a split keeps the library sound |
| TaxonomyEdits.ApplyValid | backend/src/mouseion/services/taxonomy.py:101-158 | applying a batch keeps the library sound |
| TaxonomyEdits.LibraryStaysSound | backend/src/mouseion/services/taxonomy.py:62-528 | over every run from an empty library: parents resolve and are acyclic, names are normalized, not empty and distinct ignoring ASCII case, links join live papers to live topics |
| TaxonomyOutcomes.ReparentOutcome | backend/src/mouseion/services/taxonomy.py:363-376 | a re-parent is accepted exactly for a known topic and a parent that is none or known and not at or below it; then the row has the new parent and its old name and every other row, link, paper and the next id are as before; refused, with which error when, nothing changes |
| TaxonomyOutcomes.ReparentDescendants | backend/src/mouseion/services/taxonomy.py:363-376 | after an accepted re-parent what was at or under the topic has the new parent and its ancestors instead of the old ones, and every other pair is as before |
| TaxonomyOutcomes.GetOrCreateOutcome | backend/src/mouseion/services/taxonomy.py:62-86 | a taken name returns the topic that has it and changes nothing, a new one adds exactly one row with that name and parent under the next id, and which error when |
| TaxonomyOutcomes.CreateOutcome | backend/src/mouseion/services/taxonomy.py:62-86 | the same for a checked parent |
| TaxonomyOutcomes.RenameOutcome | backend/src/mouseion/services/taxonomy.py:348-360 | a rename is accepted exactly for a known topic and a name that is not blank and not another topic's; then the row has the tidied name and its old parent and all else is as before; which error when |
| TaxonomyOutcomes.DeleteOutcome | backend/src/mouseion/services/taxonomy.py:429-446 | every other row keeps its name, children of the deleted topic get its parent and no other parent changes, exactly its links go, and the counts reported are those |
| TaxonomyOutcomes.MergeOutcome | backend/src/mouseion/services/taxonomy.py:386-426 | every other row keeps its name, a target below the source gets the source's parent, other children of the source come under the target and no other parent changes, exactly the source's links move, and which error when |
| TaxonomyOutcomes.SplitOutcome | backend/src/mouseion/services/taxonomy.py:449-487 | a split is accepted exactly when the papers are all linked to a known topic and the name is new and not blank; one row is added with that name beside the topic and exactly the chosen links move; which error when |
| TaxonomyOutcomes.LinkOutcome | backend/src/mouseion/services/taxonomy.py:509-521 | a link is added exactly between a known topic and a known paper, and nothing else changes |
| TaxonomyOutcomes.UnlinkOutcome | backend/src/mouseion/services/taxonomy.py:524-528 | unlinking removes that link alone, says whether there was one, and takes back exactly what linking added |
| TaxonomyEdits.MergeDescendants | backend/src/mouseion/services/taxonomy.py:386-426 | only the source disappears, and the target ends above exactly what was below either, the source excepted |
| TaxonomyEdits.MergePapers | backend/src/mouseion/services/taxonomy.py:386-426 | the target rolls up the union of the two paper sets, other topics keep their own papers, and the count reported is the number of papers the target gained |
| TaxonomyEdits.MergeKeepsTagged | backend/src/mouseion/services/taxonomy.py:412-420 | every paper that had a topic before the merge has one after it, and no other |
| TaxonomyEdits.DeleteDescendants | backend/src/mouseion/services/taxonomy.py:429-446 | only the deleted topic leaves the table and every other topic's descendants; direct papers of other topics are untouched |
| TaxonomyEdits.SplitPapers | backend/src/mouseion/services/taxonomy.py:449-487 | the new topic is a sibling holding exactly the chosen papers, the source keeps the rest, the number of links and every other rolled-up set are unchanged |
| TaxonomyEdits.SplitDescendants | backend/src/mouseion/services/taxonomy.py:449-487 | the new topic has nothing below it and is below exactly the proper ancestors of the source |
| TaxonomyOthers.MergeOtherDescendants | backend/src/mouseion/services/taxonomy.py:386-426 | what is below every other topic after a merge: an ancestor of both loses only the source, one of the source alone its whole branch, one of the target alone gains that branch, unless it was below the source and the target moved away from under it |
| TaxonomyOthers.MergeOtherRolled | backend/src/mouseion/services/taxonomy.py:386-426 | the papers rolled up under every other topic after a merge, in the same four cases |
| TaxonomyOthers.DeleteOtherRolled | backend/src/mouseion/services/taxonomy.py:429-446 | after a deletion every other topic rolls up what was linked to anything below it but the deleted topic |
| TaxonomyBatches.ApplyExact | backend/src/mouseion/services/taxonomy.py:101-158 | a failed batch changes nothing; otherwise the paper's links grow by exactly the duplicate-free ids returned |
| TaxonomyDecisions.BatchOutcome | backend/src/mouseion/services/taxonomy.py:101-158 | read off the batch and the tables before it: a proposal makes a topic exactly when no topic and no earlier proposal has its name, ids being handed out in order; its row carries the tidied name and the parent proposed when that was known at that moment, none otherwise; every old row is kept; every other proposal comes to the topic with its name; created, reused, ids and dropped list exactly those, in order; and a batch fails exactly for a blank name or for an unknown paper to be linked |
| TaxonomyDecisions.MakerOf | backend/src/mouseion/services/taxonomy.py:128-147 | every id handed out by a batch belongs to a proposal in it that made its topic |
| TaxonomyDecisions.TakenAfter | backend/src/mouseion/services/taxonomy.py:71-73 | at each moment of a batch a proposal's name is taken exactly when it was from the start or an earlier proposal had it |
| TaxonomyBatches.ApplyTwice | backend/src/mouseion/services/taxonomy.py:101-158 | applying the same batch again changes neither topics nor links, and decides on the same ids |
| TaxonomyBatches.InventedIdAllocated | backend/src/mouseion/services/taxonomy.py:116-131 | a batch in which an id unknown the first time is the one its own proposal allocates, so that it is reused the second time |
| TaxonomyBatches.InterleavedReparents | backend/src/mouseion/services/taxonomy.py:363-376 | when two re-parents both check before either writes, the result is acyclic exactly when not each new parent lies below the other's topic |
| TaxonomyBatches.InterleavedReparentsReachCycle | backend/src/mouseion/services/taxonomy.py:363-376 | such a pair of checks can both pass and leave a cycle |
| TopicStore.TopicStore.ListTopics | backend/src/mouseion/services/taxonomy.py:40-44 | the table's rows, sorted by name ignoring ASCII case |
| TopicStore.TopicStore.FindTopicByName | backend/src/mouseion/services/taxonomy.py:54-59 | the row with the normalized name, ignoring ASCII case, if there is one |
| TopicStore.TopicStore.GetOrCreateTopic | backend/src/mouseion/services/taxonomy.py:62-86 | the whole new tables and result of get-or-create |
| TopicStore.TopicStore.CreateTopic | backend/src/mouseion/services/taxonomy.py:62-86 | the whole new tables and result of creating under a checked parent |
| TopicStore.TopicStore.RenameTopic | backend/src/mouseion/services/taxonomy.py:348-360 | the whole new tables and result of a rename |
| TopicStore.TopicStore.ReparentTopic | backend/src/mouseion/services/taxonomy.py:363-376 | the whole new tables and result of a re-parent, its cycle test being the descendant walk |
| TopicStore.TopicStore.MergeTopics | backend/src/mouseion/services/taxonomy.py:386-426 | the splice, the relinking, the hand-over of children and the row deletion together give the merge whose effect TaxonomyEdits states |
| TopicStore.TopicStore.SpliceTarget | backend/src/mouseion/services/taxonomy.py:401-406 | a target below the source first takes the source's place under its parent |
| TopicStore.TopicStore.DeleteRow | backend/migrations/versions/0001_initial_schema.py:94-105 | the foreign-key actions of deleting a topic row: parents that resolved still resolve and links that were live still are, children of the row having become roots and its links being gone |
| TopicStore.TopicStore.DeleteTopic | backend/src/mouseion/services/taxonomy.py:429-446 | the whole new tables and result of a deletion |
| TopicStore.TopicStore.SplitTopic | backend/src/mouseion/services/taxonomy.py:449-487 | the whole new tables and result of a split |
| TopicStore.TopicStore.ApplyTopicAssignments | backend/src/mouseion/services/taxonomy.py:101-158 | the loop over the batch and the link insertions give the batch on values, rolled back whole on failure |
| TopicStore.TopicStore.AddPaperTopic | backend/src/mouseion/services/taxonomy.py:509-521 | the whole new tables and result of linking a paper |
| TopicStore.TopicStore.RemovePaperTopic | backend/src/mouseion/services/taxonomy.py:524-528 | the whole new tables and result of unlinking a paper |
| TopicWalks.ChildrenMap | backend/src/mouseion/services/taxonomy.py:208-215 | each key maps to the rows with that parent, in listing order; a parent that is not listed counts as none |
| TopicWalks.DescendantIds | backend/src/mouseion/services/taxonomy.py:218-234 | for any pointers, cyclic or not: exactly the topics from which the start can be reached, without repeats, nearer ones first |
| TopicWalks.AncestorIds | backend/src/mouseion/services/taxonomy.py:237-249 | for any pointers: the chain of parents in order, each once, stopping at the root or when it comes round |
| TopicWalks.ScopeAgreesExactly | backend/src/mouseion/services/search.py:144-160 | the recursive topic-scope query returns the walk's descendants exactly when none is more than 32 levels down, and never anything else |
| TopicWalks.VectorScopePapers | backend/src/mouseion/services/qa.py:206-219 | the papers the vector half keeps are those linked to anything below the topic |
| TopicWalks.SearchHalvesAgree | backend/src/mouseion/services/qa.py:225-252 | the text half never filters in more papers than the vector half, and the same ones when nothing is more than 32 levels down |
| TopicWalks.DeepTopicMissed | backend/src/mouseion/services/search.py:144-160 | for every depth over 32 a sound library in which the text half misses a paper the vector half finds |
| TopicWalks.DeepDbValid | backend/src/mouseion/services/search.py:144-160 | that library is sound and no deeper than said |
| TopicTree.BuildNode | backend/src/mouseion/services/taxonomy.py:282-304 | the subtree holds its descendants once each, rolls up their distinct papers and marks them visited |
| TopicTree.BuildTopicTree | backend/src/mouseion/services/taxonomy.py:269-305 | for any pointers every topic with a root above it appears once, for acyclic ones every topic; each node lists its children and counts the distinct papers on its descendants; from the listing by name the roots, and the children of every node at every depth, are in order of name ignoring ASCII case |
| TopicTree.Walk | backend/src/mouseion/services/prompts.py:277-281 | the recursive printer lists each subtree once under its parent, siblings in order of name and id, and ends without a visited set |
| TopicTree.RenderTaxonomyTree | backend/src/mouseion/services/prompts.py:258-283 | each topic with a root above it gets one line, below its parent's line and one level deeper, with nothing shallower between; lines with the same parent are in order of lower-cased name and then id; topics on a cycle get none |
| LlmRetry.OutcomeMeaning | backend/src/mouseion/services/llm.py:327-360 | a value is returned exactly when some attempt within the limit is the first whose reply validates, all earlier ones having come back and been refused |
| LlmRetry.CompleteJson | backend/src/mouseion/services/llm.py:327-360 | the loop returns that outcome within the limit, and the conversation grows by two messages per refusal before the accepted reply |
| LlmStream.Stream | backend/src/mouseion/services/llm.py:93-144 | the reader hears the chunks of one attempt only; every earlier one was dropped before it said anything |
| ExamSchemas.TidyRereadLoop | backend/src/mouseion/services/schemas.py:237-244 | the loop keeps the first occurrence of each non-blank label, tidied |
| ExamSchemas.TidyRereadShape | backend/src/mouseion/services/schemas.py:237-244 | the kept labels are tidy, not empty and distinct |
| ExamSchemas.ProbesAgain | backend/src/mouseion/services/schemas.py:154-164 | accepted probes validate again unchanged exactly when none of their texts was blank |
| ExamSchemas.VerdictAgain | backend/src/mouseion/services/schemas.py:192-257 | an accepted verdict validates again unchanged exactly when none of its texts was blank, and otherwise fails |
| ExamSchemas.PlanCitesExactly | backend/src/mouseion/services/schemas.py:154-189 | a label on the list can be cited by some accepted plan exactly when it is whitespace-tidy and at most 300 characters long |
| ExamSchemas.MisconceptionCitesExactly | backend/src/mouseion/services/schemas.py:208-257 | the same for a misconception of an accepted verdict |
| ExamSchemas.RereadCitesExactly | backend/src/mouseion/services/schemas.py:229-257 | a label on the list can be among the sections to read again exactly when it is tidy and not empty, however long |
| ExamSchemas.SomePlanAcceptedExactly | backend/src/mouseion/services/schemas.py:154-189 | some plan is accepted exactly when the list of titles is empty, which switches the test off, or some title on it is tidy and at most 300 characters long |
| ExamSchemas.DoubledBlankHeading | backend/src/mouseion/services/schemas.py:154-189 | for a tree whose one heading has two blanks in a row no plan is ever accepted |
| ExamAcceptance.PlanAcceptedExactly | backend/src/mouseion/services/schemas.py:154-189 | a plan is accepted exactly with two or three probes, texts within their limits, some probe going for a gap, methodology, results and limitations all met, and every section on the list; kept are the probes as sent with their texts tidied |
| ExamAcceptance.VerdictAcceptedExactly | backend/src/mouseion/services/schemas.py:192-257 | a verdict is accepted exactly with scores from 1 to 5, texts within their limits, at most 50 misconceptions and 20 labels, all on the list; kept is what was sent with texts tidied and labels without blanks and repeats |
| ExamSchemas.BlankPlanAccepted | backend/src/mouseion/services/schemas.py:154-189 | a plan with one blank text that is accepted, stored with an empty text, and not accepted again |
| ExamSchemas.BlankVerdictAccepted | backend/src/mouseion/services/schemas.py:192-257 | a verdict with one blank text, likewise |
| ExamSession.PlanProbes | backend/src/mouseion/services/examiner.py:348-375 | an accepted plan passed the plan validator against the tree's own section titles |
| ExamSession.BuildVerdict | backend/src/mouseion/services/examiner.py:391-418 | an accepted verdict passed the verdict validator against the tree's own section titles |
| ExamSession.PlanSize | backend/src/mouseion/services/schemas.py:167-189 | a plan has two or three probes |
| ExamOutcomes.HeadingsOffered | backend/src/mouseion/services/examiner.py:300-304 | the labels offered are, in order, the headings of exactly the sections with text that are headed by a stripped title of the tree |
| ExamOutcomes.GroundingExactly | backend/src/mouseion/services/examiner.py:307-331 | a call has no grounding exactly without a titled section, without the paper, or without such a section, in this order |
| ExamOutcomes.PlanExactly | backend/src/mouseion/services/examiner.py:348-375 | a plan is given exactly when the call grounds and it is what the first acceptable reply within the attempts comes to |
| ExamOutcomes.VerdictExactly | backend/src/mouseion/services/examiner.py:391-418 | the same for a verdict |
| ExamOutcomes.NewExamOutcome | backend/src/mouseion/services/examiner.py:236-266 | a new exam: the opening question asked and open, nothing answered, overdue exactly from the end of its time on |
| ExamOutcomes.CheckOutcome | backend/src/mouseion/services/examiner.py:520-551 | an open exam whose time is up is graded as it stands by a check: score, rubric and gaps of the verdict given, its summary as the last turn, the answers counted as before; the check fails exactly when no verdict is given, and any other row is left alone |
| ExamOutcomes.LateAnswerOutcome | backend/src/mouseion/services/examiner.py:567-578 | an answer after the time is up is not recorded and grades the exam in the same way; a graded exam takes none |
| ExamOutcomes.LastAnswerOutcome | backend/src/mouseion/services/examiner.py:580-595 | the answer that closes is recorded and counted, and the exam graded with it: when the user is done, at the cap, or when the last probe is settled |
| ExamOutcomes.ExplanationOutcome | backend/src/mouseion/services/examiner.py:597-623 | the explanation is recorded, the plan given is stored and its first probe asked, with the time renewed; it fails exactly when no plan is given |
| ExamOutcomes.VagueAnswerOutcome | backend/src/mouseion/services/examiner.py:637-662 | a first vague answer to a probe is recorded and pushed back, naming the section, and cannot fail |
| ExamOutcomes.NextProbeOutcome | backend/src/mouseion/services/examiner.py:664-698 | any other answer but the last is recorded and the next probe of the plan asked, and cannot fail |
| ExamRuns.TurnExactly | backend/src/mouseion/services/examiner.py:554-698 | for a plan without blank texts: an accepted turn pushes back exactly when the answer is vague for the first time on its probe, asks the next probe exactly while there is one, and otherwise closes |
| ExamRuns.AdvanceSound | backend/src/mouseion/services/examiner.py:554-698 | an accepted turn keeps the session sound, extends the transcript, counts one turn and never goes back a phase |
| ExamRuns.EventSound | backend/src/mouseion/services/examiner.py:529-698 | so does expiry, and a graded session never changes again |
| ExamRuns.EveryExamSound | backend/src/mouseion/services/examiner.py:236-698 | over every run: the user entries number turn_count, the probes asked are a prefix of the plan in order with at most one pushback each, and an open session has fewer turns than the cap |
| ExamRuns.EveryExamEnds | backend/src/mouseion/services/examiner.py:554-698 | a session is graded once min(max(1, cap), 1 + 2 times the plan) turns were accepted |
| ExamRuns.TurnsLeftDecreases | backend/src/mouseion/services/examiner.py:554-698 | a measure on phase, probes left and unused pushback falls with every accepted turn |
| ExamRuns.NewCitationsOffered | backend/src/mouseion/services/examiner.py:300-418 | at any moment of any exam, each section label a call adds to the row was among the titles offered to that very call |
| ExamRuns.EveryCitationOffered | backend/src/mouseion/services/examiner.py:300-418 | over a whole exam, every section label anywhere in the row was offered to one of its calls |
| ExamRuns.StateReloads | backend/src/mouseion/services/examiner.py:70-89 | the saved plan loads back exactly when no text was blank; otherwise the whole state is lost |
| ExamRuns.VerdictReloads | backend/src/mouseion/services/examiner.py:140-160 | the stored verdict loads back exactly when none of its texts is blank |
| ExamRuns.BlankPlanEndsExam | backend/src/mouseion/services/examiner.py:78-89 | with a blank text in the plan the next accepted answer closes the exam |
| ExamRuns.BlankPlanExam | backend/src/mouseion/services/examiner.py:78-89 | an exam in which this happens, at the second answer and below the cap |
| ExamRuns.BlankVerdictLost | backend/src/mouseion/services/examiner.py:140-160 | a verdict that is accepted and stored and cannot be read back |
| ExamRuns.CurrentQuestionIsTheReply | backend/src/mouseion/services/examiner.py:269-279 | after any accepted turn that leaves the exam open, the question shown on reload is the text just returned |
| ExamStore.ExamStore.CreateSession | backend/src/mouseion/services/examiner.py:236-266 | a row in the first phase, or a refusal when the paper is unknown, and then when it has no usable tree |
| ExamStore.ExamStore.FinalizeSession | backend/src/mouseion/services/examiner.py:472-517 | the graded row and its reply, or no change when the verdict call fails |
| ExamStore.ExamStore.PersistActive | backend/src/mouseion/services/examiner.py:441-469 | the whole row written for an open session |
| ExamStore.ExamStore.EnsureSessionCurrent | backend/src/mouseion/services/examiner.py:529-551 | an expired session is graded as it stands, any other is returned unchanged |
| ExamStore.ExamStore.AdvanceSession | backend/src/mouseion/services/examiner.py:554-698 | the whole new row and reply of a turn; a failed model call leaves every row unchanged |
| IngestRuns.DownloadKeeps | backend/src/mouseion/services/ingest.py:245-284 | wherever the step fails, other jobs and papers are untouched and steps only accumulate; if it goes through, download is done |
| IngestRuns.TagKeeps | backend/src/mouseion/services/ingest.py:332-409 | the tagging call is made only when the step is not marked, and once |
| IngestRuns.ClaimKeeps | backend/src/mouseion/services/papers.py:70-84 | the job ends pointing at the one paper with its hash |
| IngestRuns.TaggingOnlyFills | backend/src/mouseion/services/ingest.py:383-391 | tagging changes no bibliographic value already known, and fills a missing one only with the model's value |
| IngestRuns.AttemptKeeps | backend/src/mouseion/services/ingest.py:157-242 | an attempt at any job not done, failing anywhere, keeps the invariant, changes only its own job, extends its steps, and pays for tagging at most once and only if it began without the tag step; unless killed, a failure is recorded |
| IngestFootprint.AttemptReaches | backend/src/mouseion/services/ingest.py:157-242 | wherever an attempt fails, every paper, text, file and tree but those of its one document is as before, and nothing stored is lost |
| IngestFootprint.EndingNeeds | backend/src/mouseion/services/ingest.py:157-242 | an attempt ends only if it got the bytes, finished only if the text was extracted and every collaborator whose step was not marked delivered, and as a duplicate only of a paper with the document's hash |
| IngestFootprint.MetadataAuthoritative | backend/src/mouseion/services/ingest.py:205-215 | metadata from arXiv replaces what the paper had, column by column where there is any, and nothing else |
| IngestFootprint.RetryOutcome | backend/src/mouseion/api/jobs.py:26-55 | a retry is taken exactly for a failed job whose queue takes it, makes that row queued and changes nothing else; one not taken changes nothing |
| IngestCounts.AttemptCounted | backend/src/mouseion/services/jobs.py:117-122 | an attempt adds one to the job's count however it ends, unless counting fails, and keeps its kind and payload |
| IngestCounts.RunCounted | backend/src/mouseion/services/jobs.py:117-122 | over any run a job's count is the number of attempts made at it, and what was submitted stays as submitted |
| IngestCounts.SubmitOutcome | backend/src/mouseion/services/jobs.py:54-60 | a submission leaves one row for what was asked with nothing done, queued unless the queue refused it |
| IngestQueue.LibrarySound | backend/src/mouseion/services/jobs.py:147-163 | over any run of submissions, attempts, retries, queue outages and lost files: completed steps are a prefix of the pipeline, done without duplicate implies all five, there is one paper per hash, and every queue entry is for a queued job |
| IngestQueue.TagPaidOnce | backend/src/mouseion/services/ingest.py:341-343 | once the tag step is marked no later attempt of any run calls the model for that job |
| IngestRuns.SmoothAttemptEnds | backend/src/mouseion/services/ingest.py:157-242 | an attempt in which nothing fails ends done: as a duplicate exactly when a paper with the hash exists and extraction is not marked, otherwise with all five steps |
| IngestRuns.SelfDuplicate | backend/src/mouseion/services/ingest.py:189-203 | an extraction failure after the paper row is made: the retry takes its own paper for a duplicate and ends done with no text |
| IngestRuns.ResumedIgnoresMetadata | backend/src/mouseion/services/ingest.py:254-258 | a resumed download never uses what the metadata lookup would return |
| IngestRuns.MetadataLost | backend/src/mouseion/services/ingest.py:206-215 | an attempt cut off between marking the download and making the paper row leaves the library that a lookup without metadata would have left |
| IngestResume.TaggedTwice | backend/src/mouseion/services/ingest.py:383-391 | tagging a paper twice with the same answer is tagging it once |
| IngestResume.ResumeSameLibrary | backend/src/mouseion/services/ingest.py:157-242 | once extraction is marked and while the bytes stay on disk, an attempt in which nothing fails gives the same library however many attempts failed before it |
| IngestResume.FirstFailure | backend/src/mouseion/services/ingest.py:157-242 | the attempt that marks extraction and then fails leaves the job heading for the library it would have produced had it not failed |
| IngestResume.ResumedLikeUninterrupted | backend/src/mouseion/services/ingest.py:157-242 | failures after extraction is marked, in any number, from the attempt that marks it on, do not change the library the job ends with, the attempt count aside |
| IngestMarks.ResumeByMarks | backend/src/mouseion/services/jobs.py:9-11 | for every job not yet started and any number of failures anywhere, the library ends as if nothing had failed exactly when, after every one of them, extraction was marked, or no paper was made and either the download was not marked or the metadata is not missed |
| IngestWindows.ResumeExactly | backend/src/mouseion/services/jobs.py:9-11 | the same question answered from the last failure alone: exactly when extraction is marked with the paper coming out the same, or no paper was made and either the download is unmarked or the metadata is not missed |
| IngestWindows.OneFailureExactly | backend/src/mouseion/services/jobs.py:9-11 | after one failure: exactly when extraction was marked, or no paper was made and either the download was not marked or the metadata is not missed |
| IngestWindows.NothingLostMeaning | backend/src/mouseion/services/ingest.py:206-215 | the metadata is not missed exactly when, column by column, the model says the same or the lookup found nothing |
| IngestWindows.TitleReplaced | backend/src/mouseion/services/ingest.py:206-215 | an input: four writes succeed and the fifth fails, and the title from arXiv is replaced by the model's |
| IngestQueue.UnmovedExactly | backend/src/mouseion/api/jobs.py:26-55 | the jobs that no run can move are exactly those that have not failed and have no queue entry |
| IngestQueue.StuckForever | backend/src/mouseion/api/jobs.py:26-55 | nothing that happens later changes the row of such a job |
| IngestQueue.LostExactly | backend/src/mouseion/services/ingest.py:157-240 | the steps that leave an unfinished job without queue entry or failed state are exactly: the process dying before the queue has the job, on submission or retry, or in the attempt, and a failure to count the attempt |
| IngestQueue.RetryHanded | backend/src/mouseion/api/jobs.py:40-51 | a retry that the queue takes or refuses does what the retry route says |
| IngestQueue.KilledForever | backend/src/mouseion/worker.py:74 | a queue entry is tried once: a job whose attempt went unrecorded is never taken up again, whether or not it had written a working state |
| IngestStore.Worker.FindBySha256 | backend/src/mouseion/services/papers.py:44-45 | the row with a hash |
| IngestStore.Worker.Attach | backend/src/mouseion/services/jobs.py:90-114 | columns not given keep their value |
| IngestStore.Worker.MarkStepDone | backend/src/mouseion/services/jobs.py:151-163 | a step is added once, artifacts not given keep their value |
| IngestRuns.UpdatesKeep | backend/src/mouseion/services/papers.py:87-97 | an update never blanks a column, changes nothing when given nothing, and done twice is done once |
| IngestStore.Worker.StepDownload | backend/src/mouseion/services/ingest.py:245-284 | exactly the download step on values, exceptions included |
| IngestStore.Worker.StepExtract | backend/src/mouseion/services/ingest.py:287-300 | exactly the extraction step on values, exceptions included |
| IngestStore.Worker.StepIndex | backend/src/mouseion/services/ingest.py:303-329 | exactly the tree step on values: a tree that cannot be built is not a failure |
| IngestStore.Worker.StepTag | backend/src/mouseion/services/ingest.py:332-409 | exactly the tagging step on values, exceptions included |
| IngestStore.Worker.StepEmbed | backend/src/mouseion/services/ingest.py:412-443 | exactly the embedding step on values, exceptions included |
| IngestStore.Worker.Claim | backend/src/mouseion/services/papers.py:70-84 | the row with the hash, made if there is none, and the job pointed at it |
| IngestStore.Worker.RunFrom | backend/src/mouseion/services/ingest.py:188-236 | the duplicate short-circuit or the paper and its steps, exactly as on values |
| IngestStore.Worker.RunAttempt | backend/src/mouseion/services/ingest.py:157-242 | exactly the attempt on values: counted, run, and marked failed if it raised |
| IngestStore.Worker.RunIngest | backend/src/mouseion/services/ingest.py:136-242 | on any job of a sound library that is not done it leaves a sound library, with the endings AttemptKeeps states; an unknown id is an error that changes nothing |
| IngestStore.Worker.RetryJob | backend/src/mouseion/api/jobs.py:26-55 | only a failed job goes back to the queue, and to failed again when the queue is unavailable |
| Fusion.AddRanking | backend/src/mouseion/services/qa.py:136-146 | each paper's first rank is recorded and its share added once, and new papers join in the order met |
| Fusion.ReciprocalRankFusion | backend/src/mouseion/services/qa.py:129-162 | the first papers of the fused ranking, each with its exact score and ranks |
| Fusion.RankFacts | backend/src/mouseion/services/qa.py:139-143 | a rank is the place of a paper's first occurrence |
| Fusion.CandidateFacts | backend/src/mouseion/services/qa.py:154-162 | a candidate carries its paper's first place in the vector list and in the text list, each under its own name, and a score of 1/(60 + place) for each |
| Fusion.FusedUnion | backend/src/mouseion/services/qa.py:129-162 | the fused ranking is the union of the lists without repeats, scores never rising |
| Fusion.FusedSymmetric | backend/src/mouseion/services/qa.py:129-162 | it does not matter which list comes first |
| Fusion.AheadByKey | backend/src/mouseion/services/qa.py:147-154 | one paper comes ahead of another exactly when its score is higher, or on ties its best rank, or its id, is lower |
| Fusion.AheadExactly | backend/src/mouseion/services/qa.py:146-153 | one paper comes ahead of another exactly when it scores higher, or scores the same with a better best place, a missing one counting as a billion, or has the smaller id where these tie too |
| Fusion.FusedDominance | backend/src/mouseion/services/qa.py:129-162 | a paper ranked no worse in both lists and better in one comes ahead |
| Fusion.BothFirstExactly | backend/src/mouseion/services/qa.py:36-154 | lists of at most n entries always put papers found by both searches ahead of papers found by one exactly when n is at most 61 |
| Grounding.BudgetGroundingMaterial | backend/src/mouseion/services/qa.py:380-405 | the eviction and trimming loops compute the budgeting on values |
| Grounding.FindWeakest | backend/src/mouseion/services/qa.py:386-387 | the lowest score, the latest of equals |
| Grounding.BudgetHolds | backend/src/mouseion/services/qa.py:380-405 | the material kept never exceeds max(0, budget) |
| Grounding.WeakestGoFirst | backend/src/mouseion/services/qa.py:384-387 | what is kept keeps its order, and nothing evicted scores higher than anything kept |
| Grounding.RankedOrderPrefix | backend/src/mouseion/services/qa.py:380-405 | for papers in ranked order: the longest prefix that fits, or the first paper trimmed when not even it fits |
| Grounding.FusedMaterialBestFirst | backend/src/mouseion/services/qa.py:453-473 | material gathered for the fused candidates is in that order |
| Grounding.TrimKeepsPrefixes | backend/src/mouseion/services/qa.py:393-405 | the trimmed sections are some of the sections in order, each with a prefix of its text, not empty and not ending in whitespace |
| Grounding.Fitted | backend/src/mouseion/services/qa.py:397-400 | what is kept of a text is the longest stretch from its start that fits and does not end in whitespace |
| Grounding.TrimKeepsWhatFits | backend/src/mouseion/services/qa.py:393-405 | sections that fit and carry no trailing whitespace are kept whole |
| GroundingTail.OnlyTailExactly | backend/src/mouseion/services/qa.py:391-405 | only the tail is trimmed, as the comment says, exactly when every section goes in as it stands or the first that does not takes a part after which later sections give blanks only until a heading no longer fits |
| GroundingTail.GatheredTailExactly | backend/src/mouseion/services/qa.py:391-405 | for texts stripped and not empty, as sections are gathered: exactly when no section is cut where the blanks dropped at the cut make room for the heading of the next |
| GroundingTail.SectionCutInTheMiddle | backend/src/mouseion/services/qa.py:391-405 | an input: a section is cut after its first letter and the next one kept whole |
| History.BoundHistory | backend/src/mouseion/services/qa.py:421-436 | joined, the history is the last min(budget, total) characters of what the last messages said; order and roles are kept and only the oldest message kept is cut |
| History.BoundedUnique | backend/src/mouseion/services/qa.py:421-436 | that description fixes the history |
| History.SpokenOne | backend/src/mouseion/services/qa.py:429-434 | a message with something to say becomes one turn in its own role, stripped; one without is left out |
| History.SpokenJoin | backend/src/mouseion/services/qa.py:429-436 | messages are taken one by one, in order |
| FtsIndex.Library.DoInsertPaper | backend/migrations/versions/0001_initial_schema.py:189-208 | the index equals the one computed afresh from the tables after an insertion, or nothing changes |
| FtsIndex.Library.DoUpdatePaper | backend/migrations/versions/0001_initial_schema.py:209-218 | likewise after an update of any columns |
| FtsIndex.Library.DoDeletePaper | backend/migrations/versions/0001_initial_schema.py:219-225 | likewise after a deletion, with the cascade to the text before or after it |
| FtsIndex.Library.DoInsertText | backend/migrations/versions/0001_initial_schema.py:227-234 | likewise after a text is stored |
| FtsIndex.Library.DoUpsertText | backend/src/mouseion/services/papers.py:100-111 | likewise after an upsert, either way it resolves |
| FtsIndex.Library.DoUpdateText | backend/migrations/versions/0001_initial_schema.py:235-241 | likewise after a text is updated |
| FtsIndex.Library.DoDeleteText | backend/migrations/versions/0001_initial_schema.py:242-248 | likewise after a text is deleted |
| FtsIndex.StatementWrites | backend/migrations/versions/0001_initial_schema.py:189-248 | on both tables and the index: a stored text or paper is there as given and its index row shows exactly its columns, null as empty, a deleted one is in none of the three, every other row of all three is as before, and a statement is refused exactly when the hash is taken or the paper is unknown or already has a text |
| FtsIndex.Replay | backend/migrations/versions/0001_initial_schema.py:58-248 | after any sequence of statements the index is the one computed afresh |
| FtsIndex.OnlyItsRow | backend/migrations/versions/0001_initial_schema.py:189-248 | a statement touches the index row of its own paper and no other |
| FtsIndex.ReachableSound | backend/migrations/versions/0001_initial_schema.py:48-84 | after any sequence of statements every stored text belongs to a paper and the next id is larger than every id in use |
| FtsIndex.IdsNotReused | backend/migrations/versions/0001_initial_schema.py:48-49 | the id an insertion gives is smaller than that of any later insertion, whatever is deleted in between |
| FtsIndex.GoneForGood | backend/migrations/versions/0001_initial_schema.py:48-49 | a paper that was deleted stays gone: no later statement makes a row with its id |
| SectionForest.NearestFacts | backend/src/mouseion/services/tree_indexer.py:167-168 | the parent is the nearest earlier entry of strictly smaller level, or none |
| SectionForest.PopKeepsNearest | backend/src/mouseion/services/tree_indexer.py:167-168 | popping an entry of no smaller level never loses the parent |
| SectionForest.WalkIsOutline | backend/src/mouseion/services/tree_indexer.py:157-175 | the preorder walk of the forest is the outline itself |
| SectionTree.BuildForest | backend/src/mouseion/services/tree_indexer.py:157-173 | the stack builder links every node to exactly the later entries whose parent it is, in order |
| SectionTree.Flatten | backend/src/mouseion/services/tree_indexer.py:219-222 | the recursive walk of the linked nodes is that preorder |
| SectionTree.ClosePageRanges | backend/src/mouseion/services/tree_indexer.py:208-216 | the end pages assigned are those of the stable page order, and no link changes |
| SectionTree.FromOutline | backend/src/mouseion/services/tree_indexer.py:157-175 | one node per entry, linked, walked and closed so; its ranges are disjoint exactly when the pages do not reach across zero |
| SectionTree.FromHeadings | backend/src/mouseion/services/tree_indexer.py:177-190 | one top-level node per heading in order, closed so, with disjoint ranges |
| SectionTree.NodeIdsDiffer | backend/src/mouseion/services/tree_indexer.py:157-190 | no two nodes of a tree have the same id |
| PageRanges.EndsAfterStart | backend/src/mouseion/services/tree_indexer.py:208-216 | no closed node ends before it starts |
| PageRanges.DisjointExactly | backend/src/mouseion/services/tree_indexer.py:208-216 | nodes with different start pages share no page, exactly unless one starts on page zero and another on a negative one |
| PageRanges.PagesCovered | backend/src/mouseion/services/tree_indexer.py:208-216 | every page from one start to another lies in some node |
| SectionSiblings.SiblingExactly | backend/src/mouseion/services/tree_indexer.py:208-216 | the docstring's promise, that a node ends before its next sibling starts, is kept exactly when the node after it in page order gives the same end page |
| SectionSiblings.SiblingInOrderExactly | backend/src/mouseion/services/tree_indexer.py:208-216 | for pages from one in outline order: exactly when the entry right after the node starts with that sibling, or the sibling starts by the following page |
| SectionSiblings.ChapterCutShort | backend/src/mouseion/services/tree_indexer.py:208-216 | an input: a chapter with a section inside ends on page 2 where its next sibling would have it end on page 9 |
| TreeDocument.TreeReloads | backend/src/mouseion/services/tree_indexer.py:57-79 | a stored node reads back unchanged |
| TreeDocument.NodeKeys | backend/src/mouseion/services/tree_indexer.py:57-67 | each value of a node is stored under its own key, and its children one by one |
| TreeDocument.DocumentKeys | backend/src/mouseion/services/tree_indexer.py:101-108 | likewise for a document |
| TreeDocument.MissingKeys | backend/src/mouseion/services/tree_indexer.py:69-119 | what missing keys read as: empty texts, level 0, no pages, no children, an unknown indexer |
| TreeDocument.DocumentReloads | backend/src/mouseion/services/tree_indexer.py:89-118 | a stored document reads back unchanged exactly when it carries a creation time, which every constructed one does |
| TreeDocument.ReloadStable | backend/src/mouseion/services/tree_indexer.py:101-118 | storing and reading again what was read changes nothing more |
| FtsQuery.ScanCovers | backend/src/mouseion/services/search.py:47-47 | the scanner loses nothing but whitespace |
| FtsQuery.ScanReadsTyped | backend/src/mouseion/services/search.py:47-47 | phrases without inner quotes and words without quotes or blanks, typed with blanks between, are read back exactly as typed |
| FtsQuery.FindAll | backend/src/mouseion/services/search.py:74-74 | the matches of the term pattern, leftmost first |
| FtsQuery.CleanFacts | backend/src/mouseion/services/search.py:50-57 | a term is dropped exactly when nothing in it is alphanumeric; a kept one holds no quote |
| FtsQuery.CleanShape | backend/src/mouseion/services/search.py:50-57 | a kept term is a stretch of what was typed with a blank for each quote, and only blanks and quotes are left out around it |
| FtsQuery.BuildFtsQuery | backend/src/mouseion/services/search.py:60-85 | the loop and the join compute the query on values |
| FtsQuery.PrintParses | backend/src/mouseion/services/search.py:80-85 | a parser for quoted strings joined by AND with an optional final star reads the printed terms back |
| FtsQuery.KeptExactly | backend/src/mouseion/services/search.py:72-77 | the terms kept are, in order, the cleaned tokens that have something alphanumeric, marked quoted as typed, and no other |
| FtsQuery.NoQueryExactly | backend/src/mouseion/services/search.py:60-79 | there is no query exactly when nothing typed is alphanumeric |
| FtsQuery.QueryReadsBack | backend/src/mouseion/services/search.py:60-85 | otherwise the query reads back as the cleaned terms in order, with the star exactly when the last one was typed bare |
| FtsTyped.TypedQuery | backend/src/mouseion/services/search.py:60-85 | for any phrases in quotes and words typed with blanks between, the query parses to exactly those with something alphanumeric, stripped and in order, with the star exactly when the last of them is a bare word; with none of them there is no query |
| FtsTyped.PhraseQuery | backend/src/mouseion/services/search.py:60-85 | a phrase typed in quotes stays one phrase and is not widened |
| FtsTyped.BlanksAroundIgnored | backend/src/mouseion/services/search.py:67-69 | blanks around what is typed change nothing |

## Left out

- Text is ASCII: whitespace, case folding and alphanumerics outside ASCII are not modelled.
- Clocks are integers, generated times and job ids are parameters or allocated by the caller, and `updated_at` columns and stored error messages are not kept.
- JSON columns hold the values themselves: encoding and decoding are taken to be inverse on what the services write, and a row spoilt by hand is not modelled.
- Prompts, page images, embeddings, vector distances and BM25 scores are not modelled; the rankings that come from them are inputs.
- The phrases that mean "done" and the vagueness test are inputs of each turn, and the examiner's fixed wordings are parameters.
- TopicTree.RenderTaxonomyTree: lines carry depth, id and name; their exact punctuation is not modelled.
- TopicStore.TopicStore.GetOrCreateTopic: the second lookup after a lost insert race is not modelled, since one writer runs at a time.
- TopicStore.TopicStore.ApplyTopicAssignments: an assignment is an existing id or a proposal, as its validator guarantees; the validator's own rewriting of a doubled assignment is not modelled.
- TaxonomyBatches.InterleavedReparents: two interleaved re-parents only; other concurrent writers and SQLite's locking are not modelled.
- IngestStore.Worker.Claim: the second lookup after a lost race on the unique hash is not modelled, since one attempt runs at a time.
- IngestQueue.LibrarySound: papers are not deleted during a run, reads do not fail except as the write after them would, a call to the queue that raises has left no entry there, and submissions answered as duplicates before any job is queued are not modelled.
- IngestStore.Worker.StepTag: the topics a tagging call assigns belong to the taxonomy model; here the step only records whether applying them failed.
- IngestStore.Worker.StepIndex: when marking the step fails inside the try, the service tries to mark it a second time in the handler; here the first failure ends the attempt. Which trees were stored is kept, not their contents, and the warnings list of an outcome is not kept.
- IngestStore.Worker.RunIngest: a job that is already done is not given to it, since no queue entry for one is ever left (`IngestQueue.LibrarySound`).
- IngestResume.ResumedLikeUninterrupted: covers failures from the attempt that marks extraction on; failures before it are covered by `IngestMarks.ResumeByMarks`.
- IngestWindows.ResumeExactly: compares tables, texts, files and trees, the attempt count and the log of model calls differing as they should; failed attempts gave the answers of the good one or none, so a lookup or a model that answers differently the second time is not modelled.
- Fusion.ReciprocalRankFusion: scores are exact rationals where the service uses floating point.
- SectionTree.ClosePageRanges: nodes are named by their place in the outline, the Python objects' identity being that of the nodes linked in place.
- SectionTree.FromHeadings: the headings found on each page are an input.
- TreeDocument.TreeReloads: dictionaries whose values have other types than the service writes are not modelled.
- FtsQuery.CleanFacts: how FTS5 tokenizes the quoted terms is not modelled.
- The fallback of fixed page blocks, PageIndex conversion, tree navigation, notes, reading status, cost logging, listing queries, other HTTP routes, templates and settings are not modelled.
