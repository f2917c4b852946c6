# Vordar: verified models

Dafny models of the parts of this repository whose correctness is hardest to see by
reading: the texture pipeline's coverage loop and stage cache, the server's persistence
worker and schema ladder, the graph and tree algorithms of the asset tools, the geometry
builders that promise to equal a simpler description, the particle system, and the wire
format. Each module follows one source file (or one pair of files that must agree). Where
the source loops over state, the model is a method or a class proved against a function,
and the promises are lemmas about that function over all inputs, all runs or all
interleavings.

`dafny verify dfyconfig.toml` checks everything.

| files | what they model |
|---|---|
| `Basics` | options, digests, selections in order, sums and small sequence facts |
| `Connectivity` | paths, connected components, and what more or fewer nodes and edges do to them; shared by the rest |
| `HoleGate`, `NextBestView`, `BlendGate` | the 8-connected hole statistic, the greedy next-best-view loop, candidate recovery, and the blend with its gate |
| `PadEdges` | the in-place colour dilation as an exact L1 ball |
| `Tables`, `Persistence`, `PersistenceRuns`, `LoginRecords`, `Conversations` | the character store: one queue, waves, transactions, replies, trust on first use, what a login is granted, interleaved handles |
| `Migrations`, `MigrationRuns` | the schema ladder under crashes, and its handover to the worker |
| `SourceVersion`, `LoadedClosure`, `StageCache`, `CacheRuns`, `CacheOutcomes`, `ViewPairs` | the import closure and what imports load, the content-addressed cache under racing callers, and the canvases generated through it |
| `LockstepMatch`, `JointMap` | matching a re-emitted skeleton to the canonical one |
| `WallLoops`, `LoopReports` | union-find with path halving and the boundary loops it reports |
| `MeshIslands`, `MeshHealth`, `MeshNumbers` | flood-filled islands, two implementations of the topology diagnostics, and what their numbers are |
| `GroundMesh`, `GroundSplit`, `GroundQuads` | the region-split ground against the uniform one, and where each quad is drawn |
| `WallOpenings`, `WallPieces`, `WallTiling` | walls cut around openings |
| `QuoinStack` | bonded corner quoins |
| `XorShift`, `Particles`, `ParticleRuns`, `DrawList`, `ParticleBirths` | the particle pool, emitters, generator and draw list |
| `Varint`, `WirePosition`, `FloatCoordinates`, `Codecs`, `Protocol`, `ProtocolRoundTrip`, `WireLayout`, `Utf8Text` | the message encoding, down to its bytes |
| `ShaderText`, `ShaderReturns`, `ShaderDirectives` | the shader preprocessor |

## How the model reads the source

- Floats are reals, except for a wire position: its coordinates are those a 32-bit float
  holds, and reading one back rounds to such a float. The generator of the particle
  system works on 32-bit words.
- SHA-256 and canonical JSON are injective; squared integer distances stand for the
  distance transform, infinite when nothing is covered.
- Failures of SQL statements, begins and commits are an oracle's choice per request and
  wave; crashes come between transactions and before renames.
- What other processes publish into a shared cache is an arbitrary store at every step.
- A stage's sources, parameters and inputs do not change between its cache probe and its
  use: each canvas has one key throughout.
- What an import loads is found as the interpreter does: packages on the way first, a
  package before a module file, a directory without `__init__.py` passed through, relative
  imports from the file's own package.
- Output keys are stage, unit and name; `CacheRuns.NameReadBackIff` says when their text
  gives the name back.
- A view is the non-negative weight it gives each texel; a skeleton is a forest of named
  bones with given distances; a mesh is vertex indices, edges and triangles.

## Where the source does not do what it says

- Every opening is said to leave a real gap. One above another does not: the head of the
  lower one fills the upper (`WallTiling.StackedBreaks`). Of openings that do not meet and
  are no slivers, all are left open exactly when no two share a stretch along the wall
  (`WallTiling.ClearIffApart`).
- The import closure is called transitive, but resolves only the module a statement names,
  a module file before a package: `import p.m` also runs `p/__init__.py`
  (`LoadedClosure.PackageIsMissed`), `from p import m` also loads a submodule `p/m.py`
  (`LoadedClosure.SubmoduleIsMissed`), and `import p` prefers `p/__init__.py` to `p.py`
  (`LoadedClosure.ShadowedIsMissed`). `LoadedClosure.ClosureCompleteIff` says exactly when
  nothing loaded is missed, `LoadedClosure.ClosureIsLoadedIff` when nothing else is seen, and
  `LoadedClosure.BlindIff` when no edit goes unseen.
- Quoins are described as overlapping by one bond; each course reaches one bond into the
  other, so they overlap by two (`QuoinStack.Corner.Bonded`).
- The header of `db.rs` calls authentication deferred; the code authenticates, and the
  model follows the code.

## What the source does not say

- The next-best-view loop always ends with no offending texel, so the blend's coverage gate
  cannot fail on the loop's own picks, and while anything offends some candidate improves
  (`BlendGate.RunEndsClean`): a texel is only counted when some view reaches it, and that
  view would retire it.
- A login that fails after its first statements went through keeps them in the wave's
  transaction: the name can be claimed, and a character created, although no reply is sent.
  `PersistenceRuns.FailedLoginStillClaims` says exactly when.
- Output keys carry the unit of whoever published an entry, which need not be the caller's
  (`CacheRuns.UnitIsThePublishers`).
- A shader line that ends in two carriage returns loses one to each pass
  (`ShaderText.CarriageReturnsBreak`); `ShaderReturns.ResolveTwiceIff` says exactly which
  text, snippets and declarations one pass settles.

## Model

| member | source | states |
|---|---|---|
| `HoleGate.FloodIsComponent` | scripts/ai-pipeline/proptex/coverage.py:77-84 | the label grown from a seed is exactly the set of hole texels an 8-connected path reaches |
| `HoleGate.RowsAndColumns` | scripts/ai-pipeline/proptex/coverage.py:82-99 | hole texels are neighbours when at most one row and one column apart, corners included; distances run straight over rows and columns |
| `HoleGate.NearestIs` | scripts/ai-pipeline/proptex/coverage.py:98-99 | the distance transform is the least distance to a covered texel, infinite exactly when none is covered |
| `HoleGate.MaxDepthIs` | scripts/ai-pipeline/proptex/coverage.py:101-102 | a component is as deep as its deepest texel |
| `HoleGate.TooDeepIs` | scripts/ai-pipeline/proptex/coverage.py:189-193 | too deep is more than 0.015 of the atlas width |
| `HoleGate.LabelsPartition` | scripts/ai-pipeline/proptex/coverage.py:77-84 | the labels are pairwise disjoint whole components and cover every hole |
| `HoleGate.ScoreCountsOffenders` | scripts/ai-pipeline/proptex/coverage.py:189-193 | the gate's texel count is the number of texels whose hole component holds a texel farther than the limit from everything covered |
| `HoleGate.OffendersShrink` | scripts/ai-pipeline/proptex/coverage.py:87-113 | covering more never makes a texel offending: components split inside the old ones and distances fall |
| `HoleGate.OffendersUnchanged` | scripts/ai-pipeline/proptex/coverage.py:87-113 | when no texel stops offending, the offending components are the very same sets |
| `HoleGate.MoreCoverage` | scripts/ai-pipeline/proptex/coverage.py:189-205 | the statistic never rises under more coverage, and an unchanged texel count means an unchanged component count, so the tie-break alone never earns a pick |
| `HoleGate.ScoreZero` | scripts/ai-pipeline/proptex/coverage.py:197-198 | some component offends exactly when some texel does, so the loop's test on components is a test on texels |
| `NextBestView.ViewCoverage` | scripts/ai-pipeline/proptex/coverage.py:67-74 | the accumulation loop computes the sum of the view weights |
| `NextBestView.PickExtraViews` | scripts/ai-pipeline/proptex/coverage.py:163-213 | a texel is reachable exactly when it is in the island and the base sum or some candidate alone covers it; over those texels the loop with its live list, running sum and current score computes the greedy run |
| `NextBestView.PickLoop` | scripts/ai-pipeline/proptex/coverage.py:195-213 | the while loop returns the metadata of the greedy run from its start state, ties going to the first maximum |
| `NextBestView.PicksAreBest` | scripts/ai-pipeline/proptex/coverage.py:199-212 | each pick retires the most of all candidates left when it is made, ties going to the first in candidate order, and its recorded numbers are what it retired |
| `NextBestView.SumIsTexelwise` | scripts/ai-pipeline/proptex/coverage.py:67-74 | the coverage sum is at each texel the base plus the total of the views' weights there |
| `NextBestView.GateScoreIs` | scripts/ai-pipeline/proptex/coverage.py:189-193 | the loop's statistic counts the offending texels of the reachable island under the weights it is given |
| `NextBestView.GateMonotone` | scripts/ai-pipeline/proptex/coverage.py:189-205 | adding any non-negative view to any sum never raises the gate's statistic |
| `NextBestView.PicksRetire` | scripts/ai-pipeline/proptex/coverage.py:198-212 | every pick retires at least one offending texel, and the predicted counts add up to the whole drop |
| `NextBestView.PicksDistinct` | scripts/ai-pipeline/proptex/coverage.py:196-204 | no candidate is picked twice |
| `NextBestView.StopsAtAFixpoint` | scripts/ai-pipeline/proptex/coverage.py:198-203 | the loop ends with no offender left, or with every unpicked candidate leaving the statistic exactly as it is |
| `NextBestView.RunSumsPicks` | scripts/ai-pipeline/proptex/coverage.py:204-212 | the final sum is the base sum plus the picked views in order, and the recorded directions are theirs |
| `BlendGate.GridDistinct` | scripts/ai-pipeline/proptex/coverage.py:152-156 | the declared candidate grid and the near-top view are 37 different directions |
| `BlendGate.FilterDistinct` | scripts/ai-pipeline/proptex/coverage.py:157-160 | dropping candidates near a view keeps exactly the others and keeps directions distinct |
| `BlendGate.PickIndicesRecovers` | scripts/ai-pipeline/proptex/coverage.py:216-222 | looking distinct directions up recovers the indices they came from, in order |
| `BlendGate.PicksRecovered` | scripts/ai-pipeline/proptex/coverage.py:216-222 | `pick_indices` recovers exactly the greedy picks, in pick order |
| `BlendGate.BlendSumIsLoopSum` | scripts/ai-pipeline/proptex/albedo.py:111-120 | the blend's weight sum over base views and picks is the sum the loop ended with |
| `BlendGate.BlendViews` | scripts/ai-pipeline/proptex/albedo.py:111-146 | failure exactly by the gate and with exactly its too-deep components, else each texel its weighted quotient, the inpainted colour or the fill |
| `BlendGate.BlendIsMean` | scripts/ai-pipeline/proptex/albedo.py:119-128 | a blended colour never leaves the range its views' samples span at that texel |
| `BlendGate.AccumulateIsTexelwise` | scripts/ai-pipeline/proptex/albedo.py:111-120 | the accumulator holds at each texel the total over the views of that view's sample times that view's weight |
| `BlendGate.FillIs` | scripts/ai-pipeline/proptex/albedo.py:126-128 | off the atlas stands the mean of the blended texels, mid grey when there is none |
| `BlendGate.FailsIff` | scripts/ai-pipeline/proptex/albedo.py:130-139 | the gate fails exactly when something is covered and a reachable texel offends |
| `BlendGate.RunEndsClean` | scripts/ai-pipeline/proptex/coverage.py:198-213 | the loop always ends with no offending texel: the candidate that makes one reachable would have retired it |
| `BlendGate.GateFailsIffLoopEndsOffending` | scripts/ai-pipeline/proptex/albedo.py:130-139 | over base views and recovered picks the blend fails exactly when the loop ended with offenders, and neither ever happens |
| `BlendGate.CandidatesDistinct` | scripts/ai-pipeline/proptex/coverage.py:144-160 | the candidates left after dropping those near a view have distinct directions |
| `BlendGate.DeclaredCandidatesPass` | scripts/ai-pipeline/proptex/albedo.py:130-139 | over the declared candidate grid, whatever was dropped and whatever the weights, the picks are found again and the gate passes |
| `BlendGate.FailuresAreReachable` | scripts/ai-pipeline/proptex/albedo.py:133-139 | offending texels are uncovered and reachable; components of unreachable texels alone never fail the gate |
| `PadEdges.FourDirections` | scripts/ai-pipeline/proptex/atlas.py:104-110 | the four slice assignments in order amount to one simultaneous dilation with a fixed preference among neighbours |
| `PadEdges.PadEdges` | scripts/ai-pipeline/proptex/atlas.py:99-112 | the in-place loop leaves in the array what that many dilations compute |
| `PadEdges.MaskIsBall` | scripts/ai-pipeline/proptex/atlas.py:99-112 | after k iterations the grown mask is the set of texels within L1 distance k of the mask |
| `PadEdges.PaddedIsBall` | scripts/ai-pipeline/proptex/atlas.py:99-112 | exactly the texels at distance 1..k are rewritten, each with the original colour of a mask texel at exactly its own distance |
| `PadEdges.MaskKept` | scripts/ai-pipeline/proptex/atlas.py:99-112 | no masked texel ever changes colour |
| `Persistence.Worker.Fork` | server/vordar-server/src/db.rs:175-201 | a minted or forked handle shares the queue and owns a fresh, empty reply channel |
| `Persistence.Worker.SendLogin` | server/vordar-server/src/db.rs:207-215 | a login joins the end of the one queue, carrying its own handle's reply channel |
| `Persistence.Worker.SendSave` | server/vordar-server/src/db.rs:219-221 | a save joins the end of the one queue |
| `Persistence.Worker.Poll` | server/vordar-server/src/db.rs:224-226 | polling returns and empties that handle's replies and no other's |
| `Persistence.Worker.RunWave` | server/vordar-server/src/db.rs:241-304 | one wave: the queue loses exactly its batch; tables and inboxes change by the committed effect, or not at all when begin or commit fails |
| `Persistence.ProcessBatch` | server/vordar-server/src/db.rs:262-294 | the batch loop in the open transaction equals one-at-a-time execution in channel order |
| `PersistenceRuns.WavesRefineOneAtATime` | server/vordar-server/src/db.rs:241-304 | for any waves and failures, tables and replies are those of the committed waves' requests run one at a time |
| `PersistenceRuns.CutsAreInvisible` | server/vordar-server/src/db.rs:241-304 | with all begins and commits succeeding, how the queue is cut into waves shows neither in the tables nor on any handle |
| `PersistenceRuns.RepliesAreCommitted` | server/vordar-server/src/db.rs:260-302 | every reply answers a login of a committed wave |
| `PersistenceRuns.HashNeverChanges` | server/vordar-server/src/db.rs:363-383 | a claimed token hash never changes, whatever requests and failures follow |
| `PersistenceRuns.RefusedIff` | server/vordar-server/src/db.rs:350-383 | a login is refused exactly when the name is claimed by another token, and then changes neither table |
| `PersistenceRuns.GrantsAreDurable` | server/vordar-server/src/db.rs:350-391 | every granted login's token hash is the durable one at the end |
| `PersistenceRuns.OneTokenPerName` | server/vordar-server/src/db.rs:241-391 | over any run with any rollbacks, all granted logins of a name carry one token |
| `PersistenceRuns.LoginLinked` | server/vordar-server/src/db.rs:385-390 | on linked tables a login keeps the links and its self-healing UPDATE changes nothing |
| `PersistenceRuns.RunLinked` | server/vordar-server/src/db.rs:241-391 | every run keeps each character linked to the account of its own name |
| `PersistenceRuns.ReloginSeesSave` | server/vordar-server/src/db.rs:217-221 | a login reads the last save enqueued before it, across handles, whatever lies between |
| `PersistenceRuns.RunReloginSeesSave` | server/vordar-server/src/db.rs:241-304 | in any run of waves, a login reads the last save of its name before it whose wave committed, across handles, cuts and dropped waves |
| `LoginRecords.FirstLogin` | server/vordar-server/src/db.rs:306-346 | with a faithful codec the first granted login of a name without a character returns the start zone, the position and health offered, no cooldowns, no xp, not corrupt; and the table holds that record |
| `LoginRecords.RunFirstLogin` | server/vordar-server/src/db.rs:241-346 | in any run of waves that login is answered so, and a later granted one, with no save of the name committed between, reads the same record whatever it offers itself |
| `LoginRecords.LoginReadsRow` | server/vordar-server/src/db.rs:321-346 | a granted login of an existing character reads its row; exactly when the cooldown text does not decode it comes back empty and flagged corrupt |
| `LoginRecords.GrantLinks` | server/vordar-server/src/db.rs:385-390 | a granted login leaves its character linked, to the account it had or else to the one that logged in |
| `LoginRecords.OthersUntouched` | server/vordar-server/src/db.rs:262-391 | no request touches another name's account or character |
| `LoginRecords.SaveTouchesOneRow` | server/vordar-server/src/db.rs:270-292 | a save changes at most its own row, keeps the row's account, and creates nothing |
| `LoginRecords.OneWave` | server/vordar-server/src/db.rs:250-302 | a wave whose begin or commit failed leaves no trace in any run; a committed one has run its whole batch |
| `LoginRecords.DeliveredAre` | server/vordar-server/src/db.rs:260-302 | a handle is handed, in order, exactly the outcomes of the logins asked through it, each under its own connection and name |
| `PersistenceRuns.NoReplyIff` | server/vordar-server/src/db.rs:263-269 | a login gets no reply exactly when a statement it reaches fails |
| `PersistenceRuns.FailedLoginStillClaims` | server/vordar-server/src/db.rs:350-391 | exactly when a login without a reply claims the name, and exactly when it changes anything, in a wave that commits |
| `Conversations.Perform` | server/vordar-server/src/db.rs:175-304 | each call on a handle and each worker turn is one step of the conversation |
| `Conversations.InterleavingsRefine` | server/vordar-server/src/db.rs:135-304 | however minting, asking, polling and worker turns interleave, tables and what each handle was handed are those of the committed requests run one at a time in the order sent, and no request is lost from queue and waves |
| `Migrations.Database.Migrate` | server/vordar-server/src/db.rs:61-79 | the loop climbs one committed rung at a time from the stored version, refuses newer files, stops where a crash stops it, and is Ok exactly when the file ends at the latest version |
| `MigrationRuns.RungWorks` | server/vordar-server/src/db.rs:28-53 | every rung of a legacy file succeeds, loses no row and leaves the next version's shape |
| `MigrationRuns.BackfilledUnclaimed` | server/vordar-server/src/db.rs:46-50 | existing accounts are untouched by the ladder; backfilled ones are one unclaimed account for every character |
| `MigrationRuns.CrashesAreInvisible` | server/vordar-server/src/db.rs:61-79 | whatever crashes between transactions came before, a full start ends in the file an uninterrupted run produces |
| `MigrationRuns.MigratedAndLinked` | server/vordar-server/src/db.rs:34-79 | a legacy file reaches the latest version with every character kept and linked to its account |
| `MigrationRuns.RunsStayLinked` | server/vordar-server/src/db.rs:166-171 | after that no run of the worker leaves a character unlinked |
| `MigrationRuns.NewerIsUntouched` | server/vordar-server/src/db.rs:62-71 | a file stamped by a newer build is left alone |
| `SourceVersion.PushImports` | scripts/ai-pipeline/proptex/cache.py:104-107 | a file's names push exactly the resolved files not yet visited |
| `SourceVersion.ImportedNamesAre` | scripts/ai-pipeline/proptex/cache.py:67-83 | a file's imports are refused exactly when it does not parse or any of its statements is relative; else they are the names of all its import statements and the modules of all its from-imports |
| `SourceVersion.ClosureIsLeast` | scripts/ai-pipeline/proptex/cache.py:98-107 | the closure holds the entry and whatever its files import, and lies within every set that does |
| `SourceVersion.ImportClosure` | scripts/ai-pipeline/proptex/cache.py:98-107 | the worklist ends with the least set holding the entry and closed under resolved imports, or an error exactly when one of them cannot be read |
| `SourceVersion.SourceVersion` | scripts/ai-pipeline/proptex/cache.py:86-114 | the version is the hash of the closure's and extras' paths and contents |
| `SourceVersion.EditChangesVersionIff` | scripts/ai-pipeline/proptex/cache.py:86-114 | an edit changes the version exactly when the file is in the closure or an extra, even if it changes the imports |
| `SourceVersion.OutsideEditChangesNothing` | scripts/ai-pipeline/proptex/cache.py:86-114 | an edit elsewhere cannot even turn success into an error |
| `LoadedClosure.ClosureIsLoadedIff` | scripts/ai-pipeline/proptex/cache.py:59-107 | the closure holds only files that are loaded exactly when every import of a file that runs resolves to one that is |
| `LoadedClosure.ClosureIsLoaded` | scripts/ai-pipeline/proptex/cache.py:59-107 | so it is whenever no module file shares its name with a directory |
| `LoadedClosure.ClosureCompleteIff` | scripts/ai-pipeline/proptex/cache.py:59-107 | everything loaded is in the closure exactly when whatever a closure file that runs loads is in the closure |
| `LoadedClosure.BlindIff` | scripts/ai-pipeline/proptex/cache.py:67-114 | some edit of a loaded file goes unseen exactly when one is neither in the closure nor an extra |
| `LoadedClosure.SubmoduleIsMissed` | scripts/ai-pipeline/proptex/cache.py:71-82 | `from p import m`: the submodule is loaded and not seen |
| `LoadedClosure.PackageIsMissed` | scripts/ai-pipeline/proptex/cache.py:71-72 | `import p.m`: the package's own file is loaded and not seen |
| `LoadedClosure.ShadowedIsMissed` | scripts/ai-pipeline/proptex/cache.py:59-64 | `import p` beside `p.py` and `p/__init__.py`: the package is loaded and not seen, the module file seen and not loaded |
| `StageCache.CacheRoot.Cached` | scripts/ai-pipeline/proptex/cache.py:150-191 | a hit returns the stored record and writes nothing; a miss publishes by a rename that loses to an earlier publisher, or fails leaving no entry |
| `StageCache.NextSound` | scripts/ai-pipeline/proptex/cache.py:150-191 | every step of racing callers keeps the invariant: complete entries, one record a key, at most one miss |
| `StageCache.EntriesAreForever` | scripts/ai-pipeline/proptex/cache.py:183-190 | in every interleaving a published entry never changes or disappears |
| `CacheRuns.PublishedIsComplete` | scripts/ai-pipeline/proptex/cache.py:168-187 | every entry a reader can find holds its recorded outputs under their hashes |
| `CacheRuns.OneRecordPerKey` | scripts/ai-pipeline/proptex/cache.py:187-191 | all callers of a key get one record, and at most one of them `hit=False` |
| `CacheRuns.PublishedNeverMisses` | scripts/ai-pipeline/proptex/cache.py:160-162 | a key already published is never reported as a miss again |
| `CacheOutcomes.SealIff` | scripts/ai-pipeline/proptex/cache.py:168-181 | a production becomes an entry exactly when it raised nothing and wrote every declared output; its record hashes those outputs and no other file |
| `CacheOutcomes.LoneCaller` | scripts/ai-pipeline/proptex/cache.py:158-191 | a caller not overtaken is answered from the entry as a hit, or publishes what it produced and is told it was a miss, or raises and leaves no trace |
| `CacheOutcomes.OvertakenCaller` | scripts/ai-pipeline/proptex/cache.py:186-190 | a caller that loses the rename is answered from the winner's entry as a hit |
| `CacheOutcomes.MissedIffPublished` | scripts/ai-pipeline/proptex/cache.py:158-191 | in every interleaving some caller is told it missed exactly when the key was published in it |
| `CacheRuns.HitsStays` | scripts/ai-pipeline/proptex/cache.py:128-135 | a true `hits` probe stays true |
| `CacheRuns.CachedRefinesProduce` | scripts/ai-pipeline/proptex/cache.py:150-191 | if the producer depends on the key alone, a caller is handed what running it directly writes |
| `CacheRuns.UnitIsThePublishers` | scripts/ai-pipeline/proptex/cache.py:179-181 | in every interleaving a caller's outputs carry its own unit label exactly when the publisher's is the same |
| `CacheRuns.NameReadBackIff` | scripts/ai-pipeline/proptex/cache.py:143-143 | splitting an output key's text at its last colon gives the name back exactly when the name holds no colon |
| `CacheOutcomes.KeysDiffer` | scripts/ai-pipeline/proptex/cache.py:174-181 | within a stage, outputs of different units or names never share a key's text |
| `CacheRuns.DeclaredOutputsAreFound` | scripts/ai-pipeline/proptex/cache.py:138-147 | declared outputs of a produced entry are always found, under the publisher's keys and hashes |
| `ViewPairs.Pairs` | scripts/ai-pipeline/proptex/generate.py:41-53 | the comprehension and the stepping loop build the canvases of the specification |
| `ViewPairs.ViewsPartition` | scripts/ai-pipeline/proptex/generate.py:41-53 | every view below n has exactly one canvas and slot, for every n and n_extra <= n |
| `ViewPairs.PairsDoNotMix` | scripts/ai-pipeline/proptex/generate.py:41-53 | no canvas mixes base and picked views; base partners are half the base apart, picked partners adjacent |
| `ViewPairs.FillSources` | scripts/ai-pipeline/prop_texture.py:214-217 | filling by index leaves no source unset, each set to its view's own canvas and slot |
| `ViewPairs.AnyMiss` | scripts/ai-pipeline/prop_texture.py:203-204 | the probe reports a miss only of a key not in the cache; reporting none means every key is there |
| `ViewPairs.CacheCanvases` | scripts/ai-pipeline/prop_texture.py:206-212 | no producer runs with the server closed, for a canvas already published, or twice, whatever other processes publish meanwhile; nothing fails but a production |
| `ViewPairs.GenerateUnits` | scripts/ai-pipeline/prop_texture.py:182-218 | the server is opened only if some canvas misses and is open whenever a producer runs; every view gets its own crop of a published canvas |
| `LockstepMatch.DrawnIsListed` | scripts/ai-pipeline/char_rig.py:258-258 | the enumeration lists every injection of the siblings |
| `LockstepMatch.AssignIsOptimal` | scripts/ai-pipeline/char_rig.py:258-261 | the chosen assignment has least total distance among all injections |
| `LockstepMatch.AssignIsFirst` | scripts/ai-pipeline/char_rig.py:258-261 | among assignments of equal distance the lexicographically first is chosen |
| `LockstepMatch.CostIsTotal` | scripts/ai-pipeline/char_rig.py:259-261 | an assignment's cost is the total of its head distances |
| `LockstepMatch.DeformAre` | scripts/ai-pipeline/char_rig.py:244-245 | the candidates are the deforming children, in order |
| `LockstepMatch.Matcher.SkipSubtree` | scripts/ai-pipeline/char_rig.py:247-250 | appends exactly the names of the subtree along deform links, in visiting order |
| `LockstepMatch.Matcher.PairLevel` | scripts/ai-pipeline/char_rig.py:252-277 | the recursion fills mapping, unmatched and max_dist as the specification says, or fails exactly when it does |
| `LockstepMatch.Matcher.PairSiblings` | scripts/ai-pipeline/char_rig.py:262-274 | the pairing loop with its gate and its descent, against the same specification |
| `LockstepMatch.Matcher.SkipUntaken` | scripts/ai-pipeline/char_rig.py:275-277 | the subtrees of the siblings nobody took are dropped, in order |
| `JointMap.LevelSources` | scripts/ai-pipeline/char_rig.py:252-277 | on success every source bone is paired exactly once |
| `JointMap.MatchableIff` | scripts/ai-pipeline/char_rig.py:252-274 | a level matches exactly when, there and at every level below along the chosen assignments, source siblings are no more than canonical ones and every pair is within 0.10 m |
| `JointMap.LevelDistance` | scripts/ai-pipeline/char_rig.py:262-271 | the reported distance bounds every pair at every level, and some pair attains it, or it is zero |
| `JointMap.LevelTargets` | scripts/ai-pipeline/char_rig.py:252-277 | mapped and dropped names together are the reachable canonical names, counted with multiplicity |
| `JointMap.LevelMatched` | scripts/ai-pipeline/char_rig.py:252-277 | at every level the recorded pairs are an optimal assignment within the gate, and children of matched bones are matched |
| `JointMap.MatchJoints` | scripts/ai-pipeline/char_rig.py:228-289 | success exactly when the trees match at every level within the gate and all dropped bones are end bones; then the mapping, the largest distance of any pair, and the drops |
| `JointMap.SuccessMeans` | scripts/ai-pipeline/char_rig.py:228-289 | on uniquely named armatures the map is total on sources, injective, follows both hierarchies, and splits the canonical bones into mapped and dropped |
| `WallLoops.HalvingKeepsRoots` | scripts/asset-pipeline/townkit/verify.py:218-223 | halving a path changes no node's root and moves strictly upward |
| `WallLoops.Forest.Find` | scripts/asset-pipeline/townkit/verify.py:218-223 | terminates at the root, changes no root, and registers a new key as its own |
| `WallLoops.Forest.Union` | scripts/asset-pipeline/townkit/verify.py:225-228 | merges the class of one end into the other's and touches no other |
| `LoopReports.UnionAll` | scripts/asset-pipeline/townkit/verify.py:230-231 | after all unions two end points share a root exactly along chains of edges |
| `LoopReports.SameRootIffChained` | scripts/asset-pipeline/townkit/verify.py:216-231 | sharing a root is being joined by a chain of shared end points |
| `LoopReports.Cluster` | scripts/asset-pipeline/townkit/verify.py:233-236 | the dictionary holds, per root in insertion order, exactly the edges of that root |
| `LoopReports.OpenLoops` | scripts/asset-pipeline/townkit/verify.py:213-241 | the reports are, in loop order and as often as they occur, edge count and perimeter of exactly the connected loops whose perimeter is at least the minimum |
| `LoopReports.PerimeterIs` | scripts/asset-pipeline/townkit/verify.py:238-238 | a perimeter is the sum of its edges' lengths |
| `LoopReports.LoopIs` | scripts/asset-pipeline/townkit/verify.py:233-236 | a loop is its first edge and every boundary edge a chain joins to it, in boundary order and as often as they occur |
| `LoopReports.EveryEdgeHasLoop` | scripts/asset-pipeline/townkit/verify.py:233-236 | every boundary edge lies in some loop |
| `LoopReports.LoopsPartition` | scripts/asset-pipeline/townkit/verify.py:233-236 | two edges lie in one loop exactly when a chain joins them |
| `MeshIslands.Spread` | scripts/ai-pipeline/prop_cleanup.py:117-122 | one popped vertex: its unseen neighbours join the island and the stack |
| `MeshIslands.FloodFrom` | scripts/ai-pipeline/prop_cleanup.py:110-123 | the explicit stack collects exactly the seed's island, each vertex once |
| `MeshIslands.Components` | scripts/ai-pipeline/prop_cleanup.py:105-125 | exactly the connectivity islands, each vertex in one of them once, largest first |
| `MeshHealth.SameMain` | scripts/ai-pipeline/prop_extract.py:46-50 | with a unique largest island both implementations call the same vertices main |
| `MeshHealth.RowsAreEdges` | scripts/ai-pipeline/prop_extract.py:41-42 | the distinct sorted rows of the triangle array are the mesh's edges |
| `MeshHealth.MainFacesAgree` | scripts/ai-pipeline/prop_extract.py:52-52 | both count the same faces of the main island by one corner each, because no face spans islands |
| `MeshHealth.HealthAgrees` | scripts/ai-pipeline/prop_extract.py:31-63 | on one mesh without loose edges and with a unique largest island both give the same six numbers |
| `MeshNumbers.GeometryHealthIs` | scripts/ai-pipeline/prop_cleanup.py:161-178 | the six numbers of the mesh: edges bordering exactly one face, islands, the main island's share of the faces, its rim edges, its V - E + F, its rim edges per face; none exactly without a face on it |
| `MeshNumbers.TopoStatsAre` | scripts/ai-pipeline/prop_extract.py:41-63 | the same six of the triangle array: rows that occur once, components, and what of faces, rows and vertices lies in the main one |
| `MeshNumbers.RowsAre` | scripts/ai-pipeline/prop_extract.py:41-41 | three sorted rows a face, one for each side |
| `GroundMesh.Uniform` | client/vordar-client/src/ground.rs:153-177 | the nested loops push the shared grid and its index buffer |
| `GroundMesh.Split` | client/vordar-client/src/ground.rs:97-118 | the loop leaves in every group's buffers exactly the vertices and indices of its own quads |
| `GroundMesh.GenerateGround` | client/vordar-client/src/ground.rs:75-142 | no regions: the uniform primitive; else one primitive per non-empty group, base first |
| `GroundSplit.SplitDrawsUniform` | client/vordar-client/src/ground.rs:75-177 | for every region list the triangles over all primitives are a permutation of the uniform mesh's, all indices in range |
| `GroundSplit.RegionIsLast` | client/vordar-client/src/ground.rs:87-95 | a quad's group is the last region holding its centre, else the base |
| `GroundSplit.CentreMeansQuad` | client/vordar-client/src/ground.rs:59-95 | for a region on grid lines, a quad's centre lies in it exactly when the whole quad does |
| `GroundSplit.OnlyItsQuads` | client/vordar-client/src/ground.rs:102-117 | a group holds each of its quads as often as the grid does, and no other group's |
| `GroundSplit.QuadsOnce` | client/vordar-client/src/ground.rs:102-103 | the loops visit every quad of the grid exactly once |
| `GroundSplit.UvIsPosition` | client/vordar-client/src/ground.rs:104-113 | a group's texture coordinates are its positions over that group's own tile |
| `GroundQuads.EveryQuadIsDrawn` | client/vordar-client/src/ground.rs:87-140 | every quad's four corners, with their places, normals and texture coordinates, and its two triangles are in a primitive with the material and tile of the last region holding it, or the base's |
| `GroundQuads.OnlyOwnQuads` | client/vordar-client/src/ground.rs:102-128 | a group's buffers are four vertices and six indices a quad of its own; groups without quads have no primitive |
| `GroundQuads.QuadTrisFaceUp` | client/vordar-client/src/ground.rs:167-174 | a quad is two triangles facing up, half the cell each, sharing the diagonal from first to last corner |
| `GroundQuads.LatticeIs` | client/vordar-client/src/ground.rs:153-165 | the uniform grid holds every grid point once, row by row, at its place with its normal and texture coordinates |
| `GroundQuads.ContainsIs` | client/vordar-client/src/ground.rs:87-94 | a quad's centre lies midway between its corners and a region holds it from its minimum up to, not including, its maximum |
| `WallOpenings.SortedHas` | scripts/asset-pipeline/townkit/geo.py:196-196 | sorting by offset permutes the openings and orders them |
| `WallOpenings.CutSegments` | scripts/asset-pipeline/townkit/geo.py:197-206 | the cursor loop cuts the segments the boxes need and no other |
| `WallOpenings.WallWithOpenings` | scripts/asset-pipeline/townkit/geo.py:185-228 | the boxes are the full, sill and head pieces around the sorted openings, those thinner than 1e-6 left out |
| `WallPieces.HoleIs` | scripts/asset-pipeline/townkit/geo.py:197-199 | an opening is centred on its offset, as wide as it says, and stands on its sill, the floor without one |
| `WallPieces.PiecesAre` | scripts/asset-pipeline/townkit/geo.py:197-227 | before each opening the full height from where the one before ended, under it the sill, over it the head |
| `WallPieces.KeptAre` | scripts/asset-pipeline/townkit/geo.py:208-210 | exactly the pieces longer and higher than 1e-6 are built, in order |
| `WallPieces.BoxExtends` | scripts/asset-pipeline/townkit/geo.py:211-216 | a box reaches along the wall's axis from the piece's start to its end, upward from bottom to top, and across half the thickness either way |
| `WallPieces.SortedStable` | scripts/asset-pipeline/townkit/geo.py:194-194 | openings with one offset keep their order |
| `WallTiling.TilesIffApart` | scripts/asset-pipeline/townkit/geo.py:196-228 | for openings inside the wall, in any order: pieces, slivers included, and openings hold every point of the wall once exactly when no two openings share a stretch along it |
| `WallTiling.ClearIffApart` | scripts/asset-pipeline/townkit/geo.py:187-189 | for openings inside the wall that do not meet one another and are wider and higher than 1e-6: no box reaches into any of them exactly when no two share a stretch along the wall |
| `WallTiling.StackedBreaks` | scripts/asset-pipeline/townkit/geo.py:197-227 | openings disjoint only as rectangles, one above the other: a box fills the upper one |
| `WallTiling.BuiltIsDisjoint` | scripts/asset-pipeline/townkit/geo.py:208-227 | no point is in two boxes or in a box and an opening; a bare point of the wall is in an opening or a sliver |
| `WallTiling.ExactIffNoSlivers` | scripts/asset-pipeline/townkit/geo.py:203-210 | boxes and openings are the whole wall exactly when every gap is empty or above 1e-6 |
| `WallTiling.AreasAddUp` | scripts/asset-pipeline/townkit/geo.py:208-227 | the areas of boxes, slivers and openings add up to the wall's |
| `WallTiling.BareIsSliver` | scripts/asset-pipeline/townkit/geo.py:208-210 | a bare point lies in a piece at most 1e-6 wide or high |
| `WallTiling.SliverAreaBound` | scripts/asset-pipeline/townkit/geo.py:203-210 | what is left bare is at most three slivers an opening and one more, each no longer than the wall |
| `WallTiling.BoxIsPiece` | scripts/asset-pipeline/townkit/geo.py:211-217 | on either axis a box holds exactly its piece through the wall's thickness |
| `WallTiling.BoxesFillTheWall` | scripts/asset-pipeline/townkit/geo.py:185-228 | outside slivers, a point of the wall's solid is in a box exactly when it is in no opening |
| `XorShift.GeneratorInjective` | client/vordar-client/src/vfx.rs:77-84 | no two generator states have the same successor |
| `XorShift.NonzeroStays` | client/vordar-client/src/vfx.rs:73-84 | a nonzero state, as the seed is, never becomes zero |
| `XorShift.Draw` | client/vordar-client/src/vfx.rs:87-89 | every draw lies in [0, 1) |
| `ParticleBirths.FirstWords` | client/vordar-client/src/vfx.rs:77-84 | the generator's first two words from seed 1, which fix the shifts |
| `Particles.ParticleSim.BurstFrom` | client/vordar-client/src/vfx.rs:123-147 | a burst is that many spawns, each a no-op at the cap, with the generator advanced only by real spawns |
| `Particles.ParticleSim.Trail` | client/vordar-client/src/vfx.rs:151-174 | one mote, or nothing at the cap |
| `Particles.ParticleSim.Step` | client/vordar-client/src/vfx.rs:179-188 | integrates every particle in place, then keeps the living ones in order |
| `Particles.VfxSystem.Emit` | client/vordar-client/src/vfx.rs:361-366 | the subtracting loop charges the whole part of the debt and leaves its fraction |
| `Particles.VfxSystem.Run` | client/vordar-client/src/vfx.rs:343-369 | one frame: step, emissions in order, debts of unseen emitters dropped |
| `ParticleBirths.SparkIs` | client/vordar-client/src/vfx.rs:127-145 | a spark flies along the direction drawn at half the burst's speed or more, its lifetime in the definition's range and whole at birth |
| `ParticleBirths.MoteIs` | client/vordar-client/src/vfx.rs:155-173 | a mote starts at its emitter with a twentieth of its velocity give or take 0.2 each way, lives 0.28 s, and stretches only if the emitter moves |
| `ParticleBirths.SteppedAre` | client/vordar-client/src/vfx.rs:179-188 | a step keeps, in order, exactly the particles with more than the frame left to live, each moved |
| `ParticleBirths.EmitterBears` | client/vordar-client/src/vfx.rs:353-366 | an emitter bears the whole motes it is due or as many as there is room for, behind everything in the pool, and owes the rest, charged either way; no other debt changes |
| `ParticleBirths.FrameBears` | client/vordar-client/src/vfx.rs:348-369 | a frame moves the old particles before it bears new ones, which stay behind them unmoved |
| `ParticleRuns.SpawnsToTheCap` | client/vordar-client/src/vfx.rs:123-147 | exactly the spawns that fit are made, from consecutive generator states |
| `ParticleRuns.LivingIff` | client/vordar-client/src/vfx.rs:187-187 | exactly the particles with time left survive, each as often as before |
| `ParticleRuns.RunSound` | client/vordar-client/src/vfx.rs:123-188 | over every run of bursts and frames the pool stays within its cap and no particle outlives its life |
| `ParticleRuns.RetainedOwed` | client/vordar-client/src/vfx.rs:369-369 | a seen emitter's debt is carried over, an unseen one's forgotten |
| `ParticleRuns.RunAccount` | client/vordar-client/src/vfx.rs:353-369 | for an emitter seen in every frame, motes charged plus the fraction owed equal what it was owed plus rate times time |
| `ParticleRuns.RunFractions` | client/vordar-client/src/vfx.rs:361-366 | with nothing negative earned, every debt stays in [0, 1) over every run |
| `ParticleRuns.ChargedIsWholePart` | client/vordar-client/src/vfx.rs:353-369 | from a fresh start the motes charged are the whole part of rate times time |
| `ParticleBirths.SteadyCharge` | client/vordar-client/src/vfx.rs:353-369 | at a steady rate the motes charged are the whole part of rate times time gone by, however the frames cut it |
| `DrawList.FillDrawList` | client/vordar-client/src/vfx.rs:198-225 | the two loops emit additive instances in pool order, then the sorted alpha ones, up to the cap |
| `ParticleBirths.AdditiveAre` | client/vordar-client/src/vfx.rs:213-215 | the additive particles drawn are the first of the pool's, in pool order, up to the cap |
| `ParticleBirths.InstanceIs` | client/vordar-client/src/vfx.rs:200-212 | a living particle is drawn where it is, shrunk and darkened by the share of life left |
| `DrawList.FarFirstSorts` | client/vordar-client/src/vfx.rs:216-217 | the alpha particles are permuted, farthest first |
| `DrawList.FarFirstStable` | client/vordar-client/src/vfx.rs:217-217 | equally far particles keep their pool order |
| `DrawList.DrawsWhatFits` | client/vordar-client/src/vfx.rs:213-223 | as many instances as the smaller of cap and pool |
| `DrawList.FarthestAreDrawn` | client/vordar-client/src/vfx.rs:216-223 | no alpha particle left out is farther than one drawn |
| `DrawList.PoolIsDrawnWhole` | client/vordar-client/src/vfx.rs:198-225 | a pool within the cap is drawn whole |
| `DrawList.FadeIsLifeLeft` | client/vordar-client/src/vfx.rs:200-212 | after a frame every fade is the ratio of time left to life, in (0, 1]: the clamp never acts |
| `Varint.VarintRoundTrip` | game/vordar-protocol/src/lib.rs:245-251 | a variable-length integer within its width is read back with exactly the bytes after it left |
| `Varint.VarintLength` | game/vordar-protocol/src/lib.rs:203-208 | k bytes suffice exactly below 128^k |
| `WireLayout.VarintIs` | game/vordar-protocol/src/lib.rs:203-251 | seven bits a byte, low bits first, a high bit on every byte but the last, no padding |
| `WireLayout.VarintOnly` | game/vordar-protocol/src/lib.rs:203-251 | no other such bytes have the same value |
| `FloatCoordinates.QuantumIsHeld` | game/vordar-protocol/src/lib.rs:217-243 | the quantum of every coordinate a 32-bit float can hold is exact in such a float, and half a quantum away at most |
| `FloatCoordinates.CoordinateIsNear` | game/vordar-protocol/src/lib.rs:203-209 | every coordinate whose quantum fits 32 bits comes back within 1/512 metre |
| `FloatCoordinates.SecondTripSame` | game/vordar-protocol/src/lib.rs:217-243 | every coordinate, saturated or not, sends the same integer on its second trip |
| `FloatCoordinates.RestoredIsFloat` | game/vordar-protocol/src/lib.rs:231-242 | every received integer becomes a coordinate |
| `WirePosition.SameBytesIff` | game/vordar-protocol/src/lib.rs:217-243 | a received integer is sent again exactly when a float holds it or it is the saturated maximum |
| `WirePosition.RequantiseSettles` | game/vordar-protocol/src/lib.rs:217-243 | whatever integer is received, from the second trip on the same one is sent |
| `WirePosition.AxisBytes` | game/vordar-protocol/src/lib.rs:203-208 | an axis takes at most three bytes within 4096 metres, one within a quarter metre |
| `WireLayout.HalvesGoOut` | game/vordar-protocol/src/lib.rs:217-229 | halfway between two quanta the one farther from zero is sent |
| `WireLayout.HalvesGoEven` | game/vordar-protocol/src/lib.rs:231-243 | halfway between two floats the even one is restored |
| `Codecs.TruncatedFails` | game/vordar-protocol/src/lib.rs:249-251 | no proper prefix of an encoding decodes, for every lawful codec |
| `Codecs.LawfulList` | game/vordar-protocol/src/lib.rs:38-129 | lists round trip, read the same whatever follows, and settle, if their elements do |
| `Codecs.LawfulText` | game/vordar-protocol/src/lib.rs:54-59 | well-formed text round trips; malformed text is refused |
| `Utf8Text.Utf8Iff` | game/vordar-protocol/src/lib.rs:54-59 | text is well formed exactly when it encodes a sequence of Unicode scalar values |
| `ProtocolRoundTrip.ClientRoundTrip` | game/vordar-protocol/src/lib.rs:33-251 | every client message decodes to itself whatever bytes follow; no truncation decodes |
| `ProtocolRoundTrip.ServerRoundTrip` | game/vordar-protocol/src/lib.rs:73-251 | every server message decodes to itself with entity positions quantised and nothing else changed; no truncation decodes; and what came back is sent as the same bytes |
| `WireLayout.ClientLayout` | game/vordar-protocol/src/lib.rs:33-70 | byte for byte: a client message is its variant's index and then its fields in order |
| `WireLayout.ServerLayout` | game/vordar-protocol/src/lib.rs:73-168 | and so is a server message; a position is three folded quanta, a missing hp one zero byte |
| `ProtocolRoundTrip.PositionsAreNear` | game/vordar-protocol/src/lib.rs:203-243 | each axis of each entity position of a message moves by at most 1/512 metre, unless it saturates |
| `ProtocolRoundTrip.SettlesAfterOneTrip` | game/vordar-protocol/src/lib.rs:211-251 | a message that has travelled once comes back unchanged and is sent byte-identically from then on |
| `QuoinStack.Corner.Build` | scripts/asset-pipeline/townkit/buildings.py:55-72 | the loop ends and builds exactly the courses up to the crown, those no taller than 0.05 left out |
| `QuoinStack.Corner.BlocksAre` | scripts/asset-pipeline/townkit/buildings.py:61-71 | exactly the courses taller than 0.05 are built, lowest first |
| `QuoinStack.Corner.BlockSpansCourse` | scripts/asset-pipeline/townkit/buildings.py:59-71 | a block reaches from its course's bottom to its top, a long face one way and a short one the other |
| `QuoinStack.Corner.CoursesAre` | scripts/asset-pipeline/townkit/buildings.py:57-60 | courses start one on top of the other, a block times the pitch drawn apart, and each but the first reaches 0.012 into the one below |
| `QuoinStack.Corner.Bonded` | scripts/asset-pipeline/townkit/buildings.py:60-61 | successive courses overlap by two bonds, one from each |
| `QuoinStack.Corner.InnerIsBuilt` | scripts/asset-pipeline/townkit/buildings.py:61-62 | every course but the last is tall enough to be built |
| `QuoinStack.Corner.VoidIsBounded` | scripts/asset-pipeline/townkit/buildings.py:57-71 | every height of the wall is in a built course, but for a void below 0.026 under the crown when the last course is too low |
| `QuoinStack.Corner.StaysOnTheWall` | scripts/asset-pipeline/townkit/buildings.py:59-61 | no course starts below the foot or stands a bond or more past the crown |
| `QuoinStack.Corner.FacesAreFlush` | scripts/asset-pipeline/townkit/buildings.py:66-69 | whatever their lengths, the outer faces of all courses stand 0.05 proud of the wall, on the side away from the building's middle |
| `QuoinStack.Corner.FacesAlternate` | scripts/asset-pipeline/townkit/buildings.py:63-65 | long and short faces alternate from course to course |
| `ShaderText.Source.Resolve` | smirk/engine-renderer/build.rs:76-107 | the line loop with its recursion computes the resolved text, or panics exactly when it does |
| `ShaderDirectives.IncludeIs` | smirk/engine-renderer/build.rs:79-82 | an include line is the directive and a quoted name, alone but for white space |
| `ShaderDirectives.ConstIs` | smirk/engine-renderer/build.rs:91-92 | a const line is the directive and a name, alone but for white space |
| `ShaderDirectives.PanicsIff` | smirk/engine-renderer/build.rs:83-98 | resolving panics exactly when some line reached names a snippet or a constant there is none of |
| `ShaderText.TextSettled` | smirk/engine-renderer/build.rs:76-107 | a resolved text has no directive left, through any depth of snippets |
| `ShaderReturns.SourcesTell` | smirk/engine-renderer/build.rs:76-107 | from text, snippets and declarations alone: whether the result is blank, and whether a carriage return before a break survives the trimming |
| `ShaderReturns.ResolveTwiceIff` | smirk/engine-renderer/build.rs:76-107 | a second pass changes nothing exactly when no kept line or declaration ends in a carriage return outside a snippet's trimmed tail |
| `ShaderReturns.ResolveTwice` | smirk/engine-renderer/build.rs:76-107 | on sources without carriage returns resolving is idempotent |
| `ShaderText.CarriageReturnsBreak` | smirk/engine-renderer/build.rs:78-78 | a doubled carriage return loses one to each pass |

## Left out

- Order of `hole_component_depths` and its label numbers: only used for messages and reports.
- `coverage_stats`, `rank_candidates`, and the rounding of reported fractions and perimeters: reports.
- `view_weight` and `bilinear`: a view's weights and samples are given, non-negative and in range respectively by the caller's account.
- Telea inpainting, off-atlas images and three separate colour channels: the fill is a parameter and one channel stands for three.
- WAL, busy timeouts, foreign keys and the thread itself: a queue, atomic transactions and an oracle stand for them; a wave whose begin or commit fails is dropped whole, as in the source.
- Row ids of characters, and conversion between stored doubles and floats.
- A crash inside a transaction: atomicity is assumed of SQLite.
- `os.rename` onto an existing directory is taken to raise FileExistsError, as the source expects; other errors for a non-empty target are not modelled.
- Removal of temporary directories and elapsed time; the cache root of other stages.
- `_find_root`: the import root is given. Parsing: a text's import statements are given.
- LoadedClosure.ClosureCompleteIff: only import statements load. A submodule named by a from-import counts as loaded even when the package binds that name itself, and `from p import *` loads none, whatever `__all__` lists; modules found outside the import root, and what running the entry itself needs before its first statement, are not counted.
- `rigid_bind`, `adopt_weights` and the geometry behind bone distances; the final sorting of the dropped names.
- `covered` (T-junction test) and edge-face counts before clustering: the boundary edges are given, with rounded end points.
- `cull_loose_fragments`: a filter over the islands; easy once the islands are right.
- MeshHealth.HealthAgrees: needs a unique largest island, because the two libraries may order equal islands differently.
- `value_noise`, `height`, `vertex_normal` and tangents: the height field and its normals are parameters of the grid.
- `RESOLUTION` and `size`: the grid's vertex count, step and half width are parameters.
- Names, bevels and materials of boxes.
- Sampling of a particle's upward direction: the rejection loop need not end for every generator state, so its outcome is a parameter.
- DrawList.FillDrawList: a particle with no life at all would divide zero by zero; its fade is set to an end of the range, and `DrawList.FadeIsLifeLeft` shows no drawn particle is one.
- Emitters' interpolated render positions and the camera: parameters.
- Flow label and scope of an IPv6 address, which the wire format drops; a coordinate that is infinite or not a number; the bounds on a float's exponent, without which there are only more coordinates.
- Protocol versioning and the handshake around the messages.
- ShaderText.Source.Resolve: a snippet that includes itself never returns; the model requires includes to be acyclic.
- Extraction of shader constants from Rust files: the declarations are given, one line each.
- Client prediction, snapshot selection and intent validation.
