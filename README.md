# got_lineage succession resolver in Dafny

This project models the part of got_lineage that works out who inherits. The
input is a snapshot: a list of characters (name, sex, alive) and a flat list
of parent-to-child relationship edges. From these the resolver derives a
character's parents, sons, daughters, brothers, sisters, nephews, nieces and
the living members of the same house. It sorts each class by name,
concatenates the classes in the fixed order sons, brothers, nephews,
daughters, sisters, nieces, house survivors, and returns the first living
character, or nothing. The model also covers two small pieces the resolver
depends on:

- the validation that turns a raw relationship row, with one-character sex
  codes, into an edge;
- the string codec the character store uses for sexes.

Files:

- `wrappers.dfy`: `Option` and `Result`.
- `seqs.dfy`: `Filter` (iterator `filter` + `collect`) and `ConcatMap` (a loop
  of `extend`s), with their laws.
- `data.dfy`: `Gender`, raw and validated relationship rows, `Convert`.
- `db.dfy`: the `Character` record and the gender string codec.
- `names.dfy`: the name order used by the sort, and the house of a name (the
  token after its last space).
- `sorting.dfy`: the stable sort by name.
- `family.dfy`: the relationship queries, and the `Nephews`/`Nieces` loops.
- `succession.dfy`: the resolver as a specification function `NextHeirOf`,
  the `NextHeir` method proved equal to it, and the succession-order lemmas.
- `scenarios.dfy`: concrete snapshots with their proved heirs.

Points of the resolver's behaviour worth knowing:

- Brothers and sisters are selected by the sex recorded on the edge
  (`child_sex`, src/logic/mod.rs:81), not by the character's own `sex`.
  `Family.SiblingsMembers` states this.
- The target name is never looked up among the characters. Edges naming it
  still give it parents and children (src/logic/mod.rs:31-34, 45-48). Living
  characters whose last name token matches still count as its house
  (src/logic/mod.rs:149-156). So a name absent from the characters can have
  an heir; `Scenarios.UnknownNameStillHasHeir` exhibits one.
- A house survivor is any living character other than the target with the
  same last token (src/logic/mod.rs:155), relatives included; a relative
  found in an earlier class simply wins first.
- Nephews and nieces sweep the children of the sisters first, then those of
  the brothers (src/logic/mod.rs:110-121).

## Model

| member | source | states |
|---|---|---|
| Data.GenderToChar | src/data/mod.rs:29-33 | Each gender is written as a valid sex code, 'M' exactly for the male gender |
| Data.GenderOfChar | src/data/mod.rs:29-42 | Decoding a sex code succeeds exactly on 'M' and 'F', gives back the gender written with that code, and otherwise fails with the given message |
| Data.Convert | src/data/mod.rs:28-53 | A row is accepted exactly when both sex codes are valid. A bad parent code fails with "Bad parent gender.". A good parent code with a bad child code fails with "Bad child gender.". On success both names are copied unchanged and each gender is the one its code denotes |
| Data.ConvertRoundTrip | src/data/mod.rs:28-53 | Every edge written as a raw row is accepted back unchanged, and every accepted row is exactly the written form of its edge |
| Data.ConvertReportsParentFirst | src/data/mod.rs:44-45 | When both codes are bad, the parent error is the one reported (the both-bad case of `Data.Convert`'s contract, spelled out) |
| Db.StringToGender | src/server/db.rs:13-19 | The decoder yields the male gender exactly for the string "M" |
| Db.GenderToString | src/server/db.rs:21-26 | The encoder only ever yields "M" or "F", and "M" exactly for the male gender |
| Db.GenderRoundTrip | src/server/db.rs:13-26 | Decoding an encoded gender gives the gender back |
| Db.StringToGenderIsLenient | src/server/db.rs:13-19 | Every string other than "M", the valid "F" and garbage alike, decodes to the female gender |
| Db.StringRoundTrip | src/server/db.rs:13-26 | Encoding a decoded string gives the string back exactly when it is "M" or "F" |
| Seqs.Filter | src/logic/mod.rs:8-12 | An element is kept exactly when it occurs in the input and passes the predicate |
| Seqs.FilterCounts | src/logic/mod.rs:8-12 | Filtering keeps every occurrence of a passing element and none of a failing one, so duplicates in the input are kept as duplicates |
| Seqs.FilterIsSubsequence | src/logic/mod.rs:19-23 | Filtering keeps the kept elements in their input order |
| Seqs.FilterConcat | src/logic/mod.rs:8-12 | Filtering distributes over concatenation |
| Seqs.ConcatMap | src/logic/mod.rs:115-122 | An element is produced exactly when it belongs to the part produced for some input element |
| Seqs.ConcatMapConcat | src/logic/mod.rs:113-122 | Sweeping a concatenation of two lists gives the sweep of the first followed by the sweep of the second |
| Names.NameLeReflexive | src/logic/mod.rs:176 | Every name is ordered before or equal to itself |
| Names.NameLeAntisymmetric | src/logic/mod.rs:176 | Two names ordered both ways are equal |
| Names.NameLeTransitive | src/logic/mod.rs:176 | The name order is transitive |
| Names.NameLeTotal | src/logic/mod.rs:176 | Any two names are comparable, so the comparison never fails to give an answer |
| Names.LastTokenIsLastWord | src/logic/mod.rs:149-155 | The house token is a space-free suffix of the name, preceded by a space unless it is the whole name |
| Names.LastTokenOfSingleWord | src/logic/mod.rs:149 | A name without a space is its own house token |
| Names.LastTokenAfterSpace | src/logic/mod.rs:149 | The house token of "given surname" is "surname" for a space-free surname |
| Sorting.InsertByName | src/logic/mod.rs:175-176 | Inserting adds exactly the one character to the multiset of the list |
| Sorting.SortByName | src/logic/mod.rs:175-194 | Sorting a class is a permutation: same multiset of characters, same length |
| Sorting.SortByNameSameMembers | src/logic/mod.rs:175-194 | A sorted class holds exactly the characters of the unsorted one |
| Sorting.InsertByNameSorted | src/logic/mod.rs:175-176 | Inserting into a list sorted by name keeps it sorted |
| Sorting.SortByNameSorted | src/logic/mod.rs:175-194 | Every sorted class is in ascending name order |
| Sorting.InsertByNameNamed | src/logic/mod.rs:175-176 | Inserting a character puts it before the characters of equal name already present |
| Sorting.SortByNameStable | src/logic/mod.rs:175-194 | The sort is stable: the characters sharing a name keep their input order |
| Family.ParentsMembers | src/logic/mod.rs:26-37 | The parents of a name are exactly the characters that some edge names as its parent; an edge whose parent is no character contributes nothing |
| Family.ParentsInCharacterOrder | src/logic/mod.rs:4-13 | The parents come in the order of the characters list |
| Family.ChildrenMembers | src/logic/mod.rs:39-51 | The children of a given sex are exactly the characters that some edge from the parent names as a child with that sex on the edge |
| Family.ChildrenInCharacterOrder | src/logic/mod.rs:15-24 | The children of a given sex come in the order of the characters list |
| Family.SiblingsMembers | src/logic/mod.rs:69-87 | The siblings of a given sex are exactly the characters other than the name itself that are children of that sex, by the edge, of at least one of its parents, half-siblings included |
| Family.SiblingsInCharacterOrder | src/logic/mod.rs:69-87 | The siblings of a given sex come in the order of the characters list |
| Family.ChildrenOfSiblingsMembers | src/logic/mod.rs:105-143 | A nephew (niece) is exactly a son (daughter) of some sister or brother, and is always one of the characters |
| Family.SurvivorsMembers | src/logic/mod.rs:145-159 | The house survivors are exactly the living characters, other than the name itself, whose house token equals that of the name |
| Family.SurvivorsInCharacterOrder | src/logic/mod.rs:145-159 | The house survivors come in the order of the characters list |
| Family.Nephews | src/logic/mod.rs:105-123 | The loop over the sisters followed by the brothers, appending each sibling's sons, yields the sweep of sons over that sibling list |
| Family.Nieces | src/logic/mod.rs:125-143 | The loop over the sisters followed by the brothers, appending each sibling's daughters, yields the sweep of daughters over that sibling list |
| Family.NephewsAreSistersSonsThenBrothersSons | src/logic/mod.rs:110-122 | The nephews are the sisters' sons followed by the brothers' sons, so brothers' children are included |
| Family.NiecesAreSistersDaughtersThenBrothersDaughters | src/logic/mod.rs:130-142 | The nieces are the sisters' daughters followed by the brothers' daughters |
| Succession.FirstAlive | src/logic/mod.rs:211-214 | The search finds nothing exactly when nobody is alive; otherwise it finds a living character with nobody alive before it |
| Succession.FindAlive | src/logic/mod.rs:211-214 | The scan from the front returns the first living character, or nothing |
| Succession.NextHeir | src/logic/mod.rs:170-215 | Sorting each class, appending the six others to the sons in order and searching yields the heir defined by the succession order |
| Succession.FirstAliveConcat | src/logic/mod.rs:204-214 | Searching a concatenation finds the first part's living character if it has one, and otherwise searches the second part |
| Succession.LeastLivingIsLeast | src/logic/mod.rs:175-194 | A sorted class yields a character exactly when it has a living member; that character belongs to the class, is alive, and has a name no larger than any living member's |
| Succession.FirstAliveSeven | src/logic/mod.rs:204-214 | Searching the seven concatenated classes searches them one after another |
| Succession.HeirPriority | src/logic/mod.rs:161-215 | The heir is the least-named living member of the first class with a living member, in the order sons, brothers, nephews, daughters, sisters, nieces, house survivors; there is none when no class has a living member |
| Succession.HeirIsLivingCharacter | src/logic/mod.rs:170-215 | Any heir is alive and is one of the characters |
| Succession.NoHeirIffNoLivingCandidate | src/logic/mod.rs:204-214 | There is no heir exactly when none of the seven classes has a living member |
| Succession.LivingHouseMemberGuaranteesHeir | src/logic/mod.rs:145-214 | Another living character sharing the target's house token guarantees an heir |
| Succession.LivingSonIsHeir | src/logic/mod.rs:161-168 | With a living son, the heir is the living son with the least name, ahead of brothers, daughters and all others |
| Succession.LivingBrotherIsHeirWithoutLivingSons | src/logic/mod.rs:161-168 | Without a living son but with a living brother, the heir is the living brother with the least name |
| Succession.HouseSurvivorIsLastResort | src/logic/mod.rs:161-168 | When no relative is alive but a house member is, the heir is the living house member with the least name |
| Scenarios.RobertIsSucceededByTommen | src/logic/mod.rs:170-215 | With Joffrey dead, Robert's living son Tommen inherits ahead of his living daughter Myrcella |
| Scenarios.StannisIsSucceededByRenly | src/logic/mod.rs:170-215 | Stannis has no son and his brother Robert is dead, so his living brother Renly inherits |
| Scenarios.LoneKingHasNoHeir | src/logic/mod.rs:170-215 | A character with no edges, whose only other living character is of another house, has no heir |
| Scenarios.UnknownNameStillHasHeir | src/logic/mod.rs:145-215 | A name absent from the characters gets as heir the living member of its house (Arya Stark for "Eddard Stark") |

## Left out

- The `println!` dumps of the seven classes in `next_heir` are debug output with no effect on the result.
- CSV ingestion (`read_raw_input`) is file I/O through a CSV library; only the per-row validation `convert` is modelled.
- The MySQL store (pool, table creation, filling, `kill_character`, reads), the HTTP handlers, the environment configuration and the server bootstrap are not part of this model. The handlers' check that the requested name is a known character sits outside the resolver.
- The error type of `convert` is a boxed dynamic error in the source; the model keeps only its message string.
- Sorting.SortByName: Rust's `sort_by` reorders each vector in place; the model computes the sorted sequence as a value (a stable insertion sort), so in-place update and aliasing are not captured. The comparator's `partial_cmp(...).unwrap()` cannot fail on strings, which `Names.NameLeTotal` reflects.
- Names.NameLe: Rust compares strings byte-wise in UTF-8; the model compares code points, which orders every pair of strings the same way. No encoding is modelled.
- Performance (the repeated linear scans over the edge list) is not modelled; only the result is.
