# RGB 0.11.1 client-side validation, verified

A Dafny model of the Go engine that validates RGB 0.11.1 histories, with proofs
about its history validator, its commitments, its strict codec, its merge of
histories and two small algorithms. `dafny verify dfyconfig.toml` checks it all.

## What is modelled

**The history validator** (`Catalog`, `Schemas`, `SchemaPrograms`, `SchemaTotals`,
`SchemaAccepts`, `SchemaRules`, `Validator`, `Validation`, `Seals`, `StepRules`, `Ancestors`, `Report`,
`EntryPoints`). `Validator.Apply` is one transition of one
bundle: every check in the order of the source with its error, the inputs leaving
the live states, the outputs entering them, the graph, the recorded operations and
the contract globals. `Validation.History` is the same as a program over mutable
maps, and every method of it is proved equal to the functional step. `Replay` folds
steps; because every prefix of an accepted history is itself an accepted sequence of
steps, a theorem about all accepted sequences is a theorem about every point of
every run. On top stand

- safety (`Safety`): outputs are used once, operation ids are fresh, spends are
  traced to the operation that made them, and operations spend only what stood before;
- seals (`Seals`): every output lives where its seal says, and whoever spends it has a witness
  that spends that very transaction output;
- supply (`Balance`, `Conservation`, `Inflation`, `Unique`, `Accepted`): exact
  accounts for each of the five standard schemas, concealed assignments included;
  `AcceptedExample` is an accepted container of the shipped IFA schema, written out;
- agreement (`Agreement`): two accepted histories of one contract, against one view of
  the chain, never give an operation two witnesses nor an output two spenders;
- ancestor search and reports (`Ancestors`, `Report`, `EntryPoints`).

`StepRules`, `SchemaRules`, `Report` and `EntryPoints` say of each check exactly when it passes and
with which error it fails, in terms of what the operation, the chain and the schema say.

**The commitments** (`Symbols`, `Merkle`, `MerkleShape`, `Mpc`, `Tapret`, `Anchor`, `AnchorShape`,
`Operations`, `Records`, `Commitments`). A digest is a term: the tag and the preimage that was hashed. So two
digests are equal exactly when they are the same hash of the same preimage. Byte
layouts are written out, symbol by symbol in the `...Shape` modules and `Records`. Raw data may quote digests, so data can contain the bytes of
a tree node; where two layouts can be confused is proved exactly (see Findings).

**The strict codec** (the `Strict...` modules): types are finite, resolved
trees; the decoder and the encoder are classes over a byte string, proved equal to
the functions `Dec` and `Enc`, about which the round trips are proved. `StrictShape` and
`StrictSorting` write out lengths, numbers, characters and the order of collections. `StrictOperations`
derives what the results assume of transitions and geneses from decoding at their types,
and with `StrictLayouts` ties the hashed layouts to the codec.

**Merging** (`Merge`, `MergeHistories`, `MergeSuccess`, `MergeOrder`, `MergeAccepted`,
`Redisclosure`, `HistoryFacts`, `MergeValid`): which histories merge, what the merge tells,
and that the merge of accepted histories is accepted; **base85** (`Base85`, `Base85Shape`) and the **rejected-ancestor search** (`RejectList`).

Automatic induction is switched off throughout; every inductive step is written out.

## Assumptions

- Hashes do not collide, neither under one tag nor across tags (symbolic digests), and no 32
  bytes of a preimage are a digest unless they stand for one. Bytewise comparison of digests is
  a strict total order (`TotalOrder`); nothing else is known of the bytes.
- The resolver answers one question one way (it is a function). For agreement and the validity of
  merges only: no two transactions that it reports as mined or tentative spend one outpoint (`OneSpender`).
- A schema with a catalogued id is the catalogued schema. `Catalog` writes out the four that the
  repository ships in `issuance/templates`; of PFA only the id is in the repository, so results about
  it hold for any parts. `MergeValid` asks of a PFA schema that its transitions declare no second
  permission key (`SteadyKey`).
- Values are as the strict decoder delivers them (the `Canonical...` predicates). For transitions,
  geneses and input maps this is derived from decoding, not assumed.

## Findings

- Leaves and nodes of a Merkle tree are hashed under one tag, so a record that reads as the top
  node of other records has their root (`Merkle.RootBinds`: there is no other way). An assignment
  of type 2 with 62 bytes of state, or a global of type 2 with 94 bytes, can be such a record, and
  an input never is (`Commitments.AssignmentIsTop`, `Commitments.GlobalIsTop`). So two different
  operations can have one id: `Commitments.OneForMany`, `Commitments.OneGlobalForMany` and
  `Commitments.CollidingOperations` give them, `Commitments.TransitionIdExact` and
  `Commitments.GenesisIdExact` say exactly when ids agree. Where no type is 2, ids identify
  operations: so it is in every history that NIA, CFA, IFA or UDA accept (`MergeAccepted.AcceptedIsPlain`).
- Validation is safe all the same: the inputs are always fixed, and the masking assignment is never
  disclosed (`Agreement.MaskIsHidden`), so `Safety.RunsAreSafe` and `Agreement.HistoriesAgree` need
  no condition on types. Merging is not: `MergeSuccess.MaskedPair` gives two disclosures
  of one operation id that do not merge.
- Merging is not symmetric when a bundle discloses an operation twice, or when a history lists a
  bundle twice: `MergeSuccess.RepeatedOperations` and `MergeSuccess.OnceAndTwice` give inputs for
  which only one order succeeds. `MergeSuccess.MergeSucceeds` says for any number of histories
  exactly when they merge, `MergeSuccess.MergeBothWays` when both orders do, and
  `MergeSuccess.MergeSymmetric` that without repetitions the order never decides.
  The signature of a shared transition is always the one of the first history.
- A struct of `name` and `tag` is ordered by its tag alone. When the tag is not a bare unsigned
  number of at most eight bytes, no two values compare, not even a value with itself
  (`StrictOrder.Incomparable`), so a set or map of them holds at most one (`StrictOrder.MoreRefused`,
  `StrictOrder.SignedTags`). `StrictOrder.ComparableWithItself` is the exact condition on values.
- A number given to the encoder without raw bytes is cut to the width of its type without an
  error; `StrictReread.BuiltUnsigned` and `StrictReread.BuiltSigned` say exactly when it survives.

## Model

| member | source | states |
|---|---|---|
| RejectList.Parse | rejectlist/rejectlist.go:36-64 | an output is allowed or rejected exactly as its last line decides |
| RejectList.RejectedAncestor | rejectlist/rejectlist.go:68-89 | on every finite graph, cyclic or not: an output is returned exactly when some path reaches a rejected output and meets no allowed one, and the returned one is such an output |
| RejectList.ClosedUnderPaths | rejectlist/rejectlist.go:72-88 | a settled set closed under expansion holds the end of every unshielded path |
| Base85.EncodeBase85 | consignment/base85.go:20-44 | the text is the alphabet spelling of the digit groups, five per four bytes, one more than the bytes in a short tail |
| Base85.DecodeBase85 | consignment/base85.go:46-84 | refuses exactly the impossible lengths and foreign characters, else gives the bytes the digits decode to |
| Base85.NoWrap | consignment/base85.go:64-77 | the decoder's accumulator of an encoded group, missing digits read as 84, stays below 2^32 |
| Base85.FilledValue | consignment/base85.go:35-40 | reading dropped digits as 84 keeps the leading bytes of a short group |
| Base85.GroupRoundTrip | consignment/base85.go:26-42 | decoding an encoded group of one to four bytes gives the group back |
| Base85.RoundTrip | consignment/base85.go:20-83 | decoding the encoding of any byte string of any length gives it back |
| Base85.TextInjective | consignment/base85.go:13 | two digit strings with one text are equal |
| Base85.ThereAndBack | consignment/base85.go:20-83 | the two programs run one after the other return the input |
| Base85Shape.AlphabetIs | consignment/base85.go:13 | digit d is character d of the 85 characters, written out |
| Base85Shape.TextAt | consignment/base85.go:33-42 | character i of the text is the alphabet character of digit i |
| Base85Shape.FullGroup | consignment/base85.go:26-36 | the five digits of a full group weigh, in powers of 85, what its four bytes weigh in powers of 256, most significant first |
| Base85Shape.ShortGroup | consignment/base85.go:29-42 | a short group has the leading digits of the group filled up with zero bytes, one more than its bytes |
| Base85Shape.GroupReads | consignment/base85.go:58-83 | a group of digits is read as the leading bytes, one less, of its number modulo 2^32, missing digits counted as 84 |
| Base85Shape.GroupByGroup | consignment/base85.go:26-83 | texts are written four bytes at a time and read five digits at a time |
| Merkle.NodeInjective | consensus/merkle.go:64-73 | a node commits to branching, depth, base width and both children |
| Merkle.MerklizeInjective | consensus/merkle.go:47-62 | subtrees of one size and place with one hash have the same leaves; which subtrees these are: MerkleShape.MerklizeSplits |
| Merkle.RootsAgree | consensus/merkle.go:39-62 | exactly when two leaf lists of any lengths have one root |
| Merkle.RootBinds | consensus/merkle.go:28-45 | two lists of records of any lengths have one root exactly when they are equal or one is a single record that is the top node of the other |
| Merkle.ClimbReachesRoot | consensus/merkle.go:47-62 | climbing from any leaf of a full tree with its sibling subtrees gives the hash of the tree |
| Merkle.ClimbInjective | consensus/merkle.go:35-37 | at one position and depth, the top commits to the leaf and to every partner |
| MerkleShape.NodeIs | consensus/merkle.go:64-73 | a node hashes branching, depth, base width in 32 little-endian bytes and the two children, in this order |
| MerkleShape.MerklizeSplits | consensus/merkle.go:56-61 | more than two leaves split in halves, the left one larger by at most one, and the node is over the trees of the halves one level deeper |
| MerkleShape.SmallTrees | consensus/merkle.go:47-55 | up to two leaves are one node, in which missing children are 32 bytes of 0xff |
| MerkleShape.SmallRoots | consensus/merkle.go:39-62 | the roots of no leaf, one, two and three leaves, written out |
| MerkleShape.EveryLeafIsReached | consensus/merkle.go:39-62 | for any number of leaves and any of them, a way of node records leads from the root down to it |
| MerkleShape.WayFixesLeaf | consensus/merkle.go:39-62 | the root and the other children on a way fix the leaf at its end |
| Mpc.ConvolveMPC | anchors/mpc.go:53-85 | refuses exactly misplaced proofs (with the 32-bit wrap of the factored width), else commits to depth, cofactor and the root climbed to |
| Mpc.ClimbUp | anchors/mpc.go:70-79 | the downward loop over the path computes the climb along the position's bits |
| Mpc.TreeProvesItsLeaves | anchors/mpc.go:53-85 | for any depth up to 31 and any leaves, the proof made of sibling subtrees convolves to the commitment of the Merkle root of all leaves |
| Mpc.ConvolutionBinds | anchors/mpc.go:53-95 | one commitment opens for one protocol to one message only, by one proof only |
| Mpc.FillPath | anchors/mpc.go:43-47 | the path array holds the entropy in order, or the reader was short |
| Mpc.NewMPCProofFrom | anchors/mpc.go:37-49 | the proof has the protocol's position, cofactor zero and the entropy as path; too deep, missing and short readers fail |
| Mpc.FreshProofConvolves | anchors/mpc.go:37-62 | a fresh proof convolves with every message |
| AnchorShape.PositionIs | anchors/mpc.go:87-95 | the protocol number is a multiple of the width and the position, which is below the width |
| AnchorShape.FactoredIs | anchors/mpc.go:58-59 | the factored width is two to the depth less the cofactor, plus 2^32 when that is negative |
| AnchorShape.MpcRecords | anchors/mpc.go:66-84 | leaf and commitment records, symbol by symbol |
| AnchorShape.ConvolvesExactly | anchors/mpc.go:53-62 | a proof convolves exactly when it is no deeper than 31, within its row, and where the number of the protocol says, whatever the message |
| Tapret.CompactSizePrefixFree | anchors/tapret.go:151-166 | a length is read back whatever follows it |
| Tapret.CommitmentIsNoRightPartner | anchors/tapret.go:112-141 | no accepted right partner has the hash of a commitment leaf |
| Tapret.RootOpensOnce | anchors/tapret.go:100-174 | a root opens to one commitment and nonce, over all partner kinds |
| Tapret.KeyBindsCommitment | anchors/tapret.go:66-95 | an output key is the key of one internal key, commitment and nonce |
| AnchorShape.ScriptIs | anchors/tapret.go:49-55 | 29 bytes 0x50, 0x6a, 0x21, the commitment, then the nonce |
| AnchorShape.CompactSizeIs | anchors/tapret.go:151-166 | the one, three, five or nine bytes of a length |
| AnchorShape.LeafIs | anchors/tapret.go:143-149 | a leaf hashes version, length and script; the commitment leaf 0xc0, 64 and its script |
| AnchorShape.SiblingExactly | anchors/tapret.go:112-141 | a sibling is accepted exactly when it is on the side of its kind, a branch names its children in order, and neither a leaf script nor a first child starts as commitment scripts do |
| AnchorShape.RootExactly | anchors/tapret.go:100-110 | the root is the commitment leaf, or the branch of it and an accepted sibling, the smaller first |
| AnchorShape.KeyExactly | anchors/tapret.go:66-95 | the output key exists exactly for a valid internal key and root that tweak to a point, and hashes both |
| Anchor.FirstCarrier | consignment/validator.go:669-677 | the first output that is an OP_RETURN or pay-to-taproot script |
| Anchor.AcceptedCarrier | consignment/validator.go:610-677 | a transaction verifies exactly when its first OP_RETURN or taproot output, not a later one, pushes the commitment or pays to the key that the proof makes of it |
| Anchor.CarrierBinds | consignment/validator.go:610-639 | one transaction verifies against one commitment only, whichever methods the proofs claim |
| Anchor.OneBundlePerWitness | consignment/validator.go:145-165 | one witness transaction anchors at most one bundle of a contract |
| AnchorShape.CarriersExactly | consignment/validator.go:669-677 | of scripts in plain bytes exactly those that start with 0x6a, and those of 34 bytes that start with 0x51 0x20, can carry a commitment |
| AnchorShape.MadeCarriers | anchors/tapret.go:176-181 | the two scripts that commitments make, written out, can carry one |
| Operations.CommitBundle | operations/bundle.go:35-85 | empty parts, wrong ids and uncommitted transitions fail in order; else id, committed operations and transitions |
| Operations.CollectTransitions | operations/bundle.go:62-82 | the first failing known transition decides, else all transitions in order |
| Operations.KnownAccepted | operations/bundle.go:70-81 | each transition of an accepted bundle has inputs, its declared id, and is committed |
| StepRules.KnownExactly | operations/bundle.go:62-82 | transitions pass exactly when each has inputs and its declared id and is committed; the first that does not gives its error |
| StepRules.BundleExactly | operations/bundle.go:35-85 | when a bundle commits, with which error it does not, and what the commitment holds |
| Commitments.ConcealInjective | operations/genesis.go:174-245 | a secret seal conceals one seal only, over genesis and graph seals |
| Commitments.AssignmentInjective | operations/genesis.go:158-168 | an assignment record fixes type, state with its class, and secret |
| Commitments.AssignmentIsTop | operations/genesis.go:158-168 | an assignment reads as the top node of other records exactly when these are 62 modulo 2^16 and it is the one assignment of type 2 that quotes their halves |
| Commitments.GlobalIsTop | operations/genesis.go:114-131 | a global value does exactly when these are 94 modulo 2^16 and it is the one value of type 2 that quotes their halves |
| Commitments.FlatInjective | operations/genesis.go:114-172 | a flat list of records fixes how it was grouped by type |
| Commitments.RecordsBind | operations/genesis.go:133-172 | the assignment leaves fix types, classes, states and secrets |
| Commitments.RecordsConcealed | operations/genesis.go:174-182 | disclosing or concealing seals changes no leaf |
| Commitments.GlobalsBind | operations/genesis.go:114-131 | the global leaves fix all global values |
| Commitments.MetadataBinds | operations/transition.go:62 | the metadata bytes fix the metadata |
| Commitments.AssignmentsBind | operations/genesis.go:133-172 | two lists of assignments have one root exactly when they differ at most in disclosure or one masks the other |
| Commitments.InputsBind | operations/transition.go:93-106 | the inputs root fixes the list of inputs |
| Commitments.TransitionIdExact | operations/transition.go:28-91 | exactly when two transitions have one id: equal header, metadata and inputs, and globals and concealed assignments equal or masking |
| Commitments.TransitionIdBinds | operations/transition.go:28-91 | without types 2, two transitions have one id exactly when they differ at most in disclosure and signature |
| Commitments.OneForMany | operations/genesis.go:133-172 | any transition with 62 assignments has the id of another one with a single assignment of type 2 |
| Commitments.CollidingOperations | operations/genesis.go:133-172 | two such transitions exist |
| Commitments.GenesisIdExact | operations/genesis.go:32-104 | exactly when two geneses have one id |
| Commitments.GenesisIdBinds | operations/genesis.go:32-104 | without types 2, two geneses have one id exactly when they differ at most in disclosure |
| Commitments.OneGlobalForMany | operations/genesis.go:114-131 | any genesis with 94 global values has the id of another one with a single value of type 2 |
| Commitments.GenesisIsNoTransition | operations/genesis.go:88-92 | no transition has the id of a genesis |
| Commitments.BundleIdBinds | operations/bundle.go:50-54 | two bundles have one id exactly when they have one input map |
| Commitments.OneOperationPerInput | consignment/validator.go:523-541 | under one bundle id an input is committed to one operation |
| Records.TransitionIs | operations/transition.go:79-89 | an operation id of a transition hashes version, nonce, 1, contract, type, and the commitments to metadata, globals, inputs and assignments, in this order |
| Records.GenesisIs | operations/genesis.go:86-102 | that of a genesis: version, eight bytes 0xff, 0, schema, time, issuer, chain, strategy, and the same four, to no input |
| Records.SealIs | operations/genesis.go:174-245 | a concealed seal hashes its pointer, output number and blinding |
| Records.AssignmentIs | operations/genesis.go:158-168 | an assignment leaf: type, state marked by class, secret |
| Records.GlobalIs | operations/genesis.go:114-131 | a global leaf: type, length, bytes |
| Records.RefIs | operations/opout.go:66-76 | a reference: operation id, type, number |
| Records.RecordAt | operations/genesis.go:133-172 | assignment leaves stand entry by entry, in order |
| Records.GlobalAt | operations/genesis.go:114-131 | global leaves stand type by type, in order |
| Records.MetaIs | operations/transition.go:62 | metadata entries follow one another as type, length and bytes |
| Records.InputMapIs | operations/bundle.go:50-54 | a bundle id hashes the number of committed inputs, then each reference with its operation |
| StrictPrograms.Decoder.DecodeType | strict_types/decode.go:70-85 | the decoder gives the value of the functional decoder with its exact bytes as cache, and stops where that stops; its leaves are written out by the StrictShape and StrictSorting rows |
| StrictPrograms.Decoder.DecodeItems | strict_types/decode.go:423-443 | reading set items with the duplicate and order checks accepts exactly lists in which each item is below the next, in the order that the StrictSorting rows write out |
| StrictPrograms.Decoder.DecodeEntries | strict_types/decode.go:466-484 | reading map entries with the duplicate and order checks accepts exactly entries in which each key is below the next, in the same order |
| StrictPrograms.Decoder.DecodeRestricted | strict_types/decode.go:292-326 | restricted strings: length, first and rest alphabets |
| StrictPrograms.Decoder.Length | strict_encoding/decoder.go:91-121 | a length prefix of the width its maximum dictates |
| StrictPrograms.DuplicateIsUnordered | strict_types/decode.go:427-439 | an item repeated byte for byte is never in order, so the duplicate check refuses nothing more |
| StrictShape.LengthIsLeast | strict_encoding/decoder.go:91-121 | the width of a length is the least of 1, 2, 3, 4 and 8 bytes that its maximum fits |
| StrictShape.SizesAre | strict_types/decode.go:187-202 | the size of every number code |
| StrictShape.NumbersAre | strict_types/decode.go:157-185 | how numbers are read by class, and that non-zero numbers refuse exactly zero |
| StrictShape.Utf8Exactly | strict_types/decode.go:219-248 | a string is valid exactly when it is the UTF-8 encoding of scalar values |
| StrictShape.CharacterDecodes | strict_types/decode.go:219-248 | a character is decoded exactly where the encoding of a scalar value stands, and takes just that |
| StrictShape.TagsAre | strict_types/decode.go:504-535 | an enumeration is one of characters exactly when it has variants and all their tags are from 32 to 127 |
| StrictShape.StringsDecode | strict_types/decode.go:385-421 | lists of plain bytes take any bytes, lists of characters exactly UTF-8, lists of printable characters exactly their tags |
| StrictShape.RestrictedDecodes | strict_types/decode.go:292-340 | restricted strings take exactly a first and further characters of their alphabets, with bounds one higher than those of the list |
| StrictShape.WrappedEncodes | strict_types/value.go:105-110 | the encoder writes a value inside one-item tuples as the bare value |
| StrictWriter.Encoder.EncodeType | strict_types/encode.go:38-64 | the encoder appends exactly the functional encoding, or fails where that fails |
| StrictWriter.Encoder.EncodeTuple | strict_types/encode.go:163-198 | one-element tuples with and without wrapping, restricted strings, and plain tuples |
| StrictWriter.Encoder.EncodeMap | strict_types/encode.go:278-301 | entries in order with increasing keys, after their number |
| StrictWriter.IncreasingCheck | strict_types/encode.go:254-262 | the scan accepts exactly strictly increasing lists |
| StrictRoundTrip.DecodedEncodes | strict_types/decode.go:70-113 | every accepted byte string is the encoding of its value followed by the rest; the value is well typed and all caches in it are the encodings of their nodes |
| StrictRoundTrip.StampKeepsOrder | strict_types/value.go:164-245 | refreshing caches changes no comparison |
| StrictReread.EncodedDecodes | strict_types/encode.go:38-301 | every well-typed value encodes, and its encoding before any suffix decodes to it and leaves the suffix |
| StrictReread.DecodeEncode | strict_types/decode.go:49-68 | encoding what a whole string decodes to gives the string |
| StrictReread.EncodeDecode | strict_types/encode.go:21-36 | decoding what a well-typed value encodes to gives the value with fresh caches, the same value exactly when its caches were fresh |
| StrictReread.DecodeInjective | strict_types/decode.go:49-68 | two strings that decode to one value are equal |
| StrictReread.DecodedComesBack | strict_types/decode.go:49-68 | a decoded value, encoded before any suffix, is decoded again unchanged |
| StrictReread.BuiltUnsigned | strict_types/encode.go:91-120 | a number built from a value is that value exactly when it fits its width and is not a refused zero |
| StrictReread.BuiltSigned | strict_types/decode.go:210-217 | a signed number of one to eight bytes built from a value is that value exactly when it fits two's complement |
| StrictOrder.Antisymmetric | strict_types/value.go:164-245 | swapping two values negates their comparison, or both are incomparable |
| StrictOrder.Irreflexive | strict_types/value.go:164-245 | no value is below itself |
| StrictOrder.Transitive | strict_types/value.go:164-245 | comparisons of values of one type compose |
| StrictOrder.Total | strict_types/value.go:164-337 | two sortable values of one type are always comparable |
| StrictOrder.ComparableWithItself | strict_types/value.go:164-245 | a value is comparable with itself exactly when no struct of name and tag met in it lacks a bare unsigned tag of at most eight bytes |
| StrictOrder.TypeSortable | strict_types/value.go:206-216 | all values of a type whose structs of name and tag have such tags are sortable |
| StrictOrder.Incomparable | strict_types/value.go:206-216 | structs of name and tag over any other tag type compare with nothing, not even themselves |
| StrictOrder.MoreRefused | strict_types/decode.go:423-443 | a set of them that announces more than one is never decoded |
| StrictOrder.SignedTags | strict_types/value.go:206-216 | two structs with signed tags that decode one by one but in no set |
| StrictOrder.IncreasingEverywhere | strict_types/decode.go:434-439 | adjacent increase makes any earlier item smaller than any later one |
| StrictOrder.NoItemTwice | strict_types/decode.go:423-443 | an increasing list holds no value and no encoding twice |
| StrictSorting.BytesSorted | strict_types/value.go:177-180 | byte strings compare as dictionary words: a proper prefix, or the smaller byte at the first that differs, comes first |
| StrictSorting.StringsSorted | strict_types/value.go:177-180 | so do byte strings and texts as values |
| StrictSorting.NumbersSorted | strict_types/value.go:317-350 | numbers compare by value, wide ones by the integer that their bytes stand for |
| StrictSorting.TagsSorted | strict_types/value.go:181-190 | enumerations compare by tag, unions by tag and then by content |
| StrictSorting.SinglesSorted | strict_types/value.go:165-166 | a tuple of one item stands where its item stands |
| StrictSorting.CollectionsSorted | strict_types/value.go:303-315 | lists, sets and tuples compare at the first item that differs, else the shorter comes first |
| StrictSorting.MapsSorted | strict_types/value.go:226-240 | the smaller map first; maps of one size by keys and values in turn |
| StrictSorting.StructsSorted | strict_types/value.go:206-225 | structs of one type compare at the first field that differs, those of name and tag by the tag |
| StrictSorting.RefsSorted | strict_types/value.go:216-225 | of two references the one that is smaller by operation id, byte for byte, then by type, then by number comes first |
| StrictSorting.SetDecodes | strict_types/decode.go:423-443 | encoded items after their number are decoded as a set exactly when each is below the next |
| StrictSorting.MapDecodes | strict_types/decode.go:466-484 | encoded entries after their number are decoded as a map exactly when each key is below the next |
| StrictSorting.InputsAreSorted | strict_types/decode.go:434-443 | the bytes of references are the inputs of a transition exactly when each reference is smaller than the next, by operation id, type and number |
| StrictSorting.InputMapIsSorted | strict_types/decode.go:466-484 | and the bytes of entries are an input map exactly when their references are |
| StrictInputs.DecodedInputsDistinct | consignment/validator.go:498-521 | the inputs of any decoded transition are one to 65535 references within their widths, pairwise different |
| StrictInputs.DecodedInputMapDistinct | consignment/validator.go:523-541 | the keys of any decoded input map are pairwise different references |
| StrictLayouts.OpoutEncoded | operations/transition.go:93-106 | the encoding of a reference is its 32-byte id and two 16-bit numbers, the leaf that operations hash |
| StrictLayouts.BundleHashesItsMap | operations/bundle.go:50-51 | the preimage of a bundle id spells exactly the bytes that the input map was decoded from |
| StrictLayouts.DecodedTypesIncrease | strict_types/decode.go:466-484 | the type ids of any decoded map are strictly increasing 16-bit numbers |
| StrictOperations.DecodedTransition | operations/transition.go:28-91 | every byte string that decodes at the transition type is a canonical transition with inputs, field by field as the readers see it |
| StrictOperations.DecodedGenesis | operations/genesis.go:32-104 | every byte string that decodes at the genesis type is a canonical genesis, field by field as the readers see it |
| StrictOperations.AssignmentLeaf | operations/genesis.go:158-168 | the leaf of an assignment is the encoding of its type, that of its state, and its secret |
| StrictOperations.GlobalLeaf | operations/genesis.go:114-131 | the leaf of a global is the encoding of its type and that of its value |
| StrictOperations.TransitionHeader | operations/transition.go:79-85 | what an operation id hashes before the commitments are the encodings of version and nonce, a byte 1, and the encodings of contract and type |
| SchemaPrograms.ValidateMetadata | schemas/validate.go:119-174 | the first undeclared or undecodable entry decides |
| SchemaPrograms.DecodeMetadata | schemas/transition.go:285-316 | the amounts by type, or a type error |
| SchemaPrograms.EnforceOccurrences | schemas/validate.go:437-445 | every constrained type occurs within its bounds, absent ones zero times |
| SchemaPrograms.ValidateGlobals | schemas/validate.go:176-236 | declared types, decodable values and occurrences, with the values by type |
| SchemaPrograms.ValidateAssignments | schemas/validate.go:238-337 | declared types and classes, decodable state, 64-bit sums and occurrences, with the totals by type |
| SchemaPrograms.ResolveInputs | schemas/transition.go:131-199 | declared types, resolved states of the right class, 64-bit sums and occurrences, with counts, amounts and data by type |
| SchemaPrograms.ValidateTransition | schemas/transition.go:61-211 | all layers in order with their errors, then the script of the schema; when that is: SchemaRules.AcceptedByRule |
| SchemaPrograms.ValidateGenesis | schemas/validate.go:55-117 | all layers in order with their errors, then the genesis script; when that is: SchemaRules.GenesisByRule |
| SchemaPrograms.CollectRevealed | schemas/outputs.go:22-80 | the revealed assignments in order with their indices among all of their type |
| SchemaTotals.OutputsMean | schemas/validate.go:270-330 | each accepted total is the true sum, count and data over all assignments of the type, concealed ones included |
| SchemaTotals.InputsMean | schemas/transition.go:139-195 | the tracked input totals are the true sums, counts and data over the inputs |
| SchemaTotals.ValidatedMeans | schemas/transition.go:61-211 | what acceptance says of every type: true totals, resolved inputs of the right class, and the script's verdict on them |
| SchemaAccepts.MetadataExactly | schemas/validate.go:119-174 | metadata passes exactly when every entry is allowed, declared and decodes to an amount |
| SchemaAccepts.GlobalsExactly | schemas/validate.go:176-236 | globals pass exactly when every type is allowed and declared, every value decodes, and every allowed type occurs as often as it may |
| SchemaAccepts.OutputsExactly | schemas/validate.go:238-337 | assignments pass exactly when every type is allowed and declared with its class, every state decodes, the true sum of every type is below 2^64, and every allowed type occurs as often as it may |
| SchemaAccepts.InputsExactly | schemas/transition.go:131-199 | inputs pass exactly when all resolve to states of their declared classes, the true sums are below 2^64, and every allowed type occurs as often as it may |
| SchemaAccepts.ValidatedExactly | schemas/transition.go:61-211 | a transition is accepted exactly when all its parts fit and the script of its schema accepts their totals |
| SchemaAccepts.GenesisExactly | schemas/validate.go:55-117 | a genesis is accepted exactly when all its parts fit and the script accepts their totals |
| SchemaRules.MetadataMeans | schemas/transition.go:285-316 | the amount read for a metadata type is that of its last entry |
| SchemaRules.WholeExactly | schemas/transition.go:272-277 | an allocation is of the whole token exactly when it spells the first four bytes of the token, then 01 00 00 00 00 00 00 00 |
| SchemaRules.ScriptExactly | schemas/transition.go:213-283 | the script of each schema holds exactly when its rule does, told in true sums over the transition, declared values and spelled bytes; otherwise it is unsupported or a script error |
| SchemaRules.AcceptedByRule | schemas/transition.go:61-211 | a transition is accepted exactly when it conforms in all its parts and obeys the rule of its schema: transfers of NIA, CFA, PFA, UDA and IFA, inflation and burn |
| SchemaRules.HonestBurn | schemas/transition.go:252-266 | a burn that conforms, burns some of every kind that comes in, and lets the rest out is accepted |
| SchemaRules.GenesisByRule | schemas/validate.go:339-377 | a genesis is accepted exactly when it conforms and obeys the rule of its schema |
| Outputs.RevealedOutputsHas | schemas/outputs.go:39-76 | an output is disclosed exactly when the assignment at its index is revealed, with that seal and state |
| Outputs.RevealedOutputsDistinct | schemas/outputs.go:70-76 | no two disclosed outputs share a reference |
| Outputs.RegisterMeans | consignment/validator.go:411-435 | an operation under a fresh id adds its disclosed outputs, each where Placing puts it (Seals.PlacingExactly), and leaves every other one as it was |
| Seals.PlacingExactly | consignment/validator.go:453-496 | an output has a place exactly when its number has 32 bits and its seal, if it names no transaction, has a witness; it is placed at the transaction that the seal names, else at the witness, with its state and blinding |
| Seals.RegisterSeals | consignment/validator.go:411-435 | registering fails exactly when some disclosed seal cannot be closed, else adds exactly the disclosed assignments, each at the output its seal names |
| Seals.StartSeals | consignment/validator.go:117-120 | after genesis exactly its disclosed assignments are live, each at the output that its seal names, or genesis is refused |
| Seals.SealsDecide | consignment/validator.go:223-239 | a transition whose inputs and state pass is accepted exactly when every disclosed seal can be closed |
| Seals.ApplySeals | consignment/validator.go:233-239 | after an accepted transition, of its own outputs exactly the disclosed ones are live: TxId(u), vout at output vout of u, witness seals at output vout of its witness |
| Seals.SpentSealIsClosed | consignment/validator.go:203-217 | at every point: what an operation spends was disclosed by genesis or an earlier operation, and its witness spends the output that the disclosed seal names |
| Seals.SealsAreClosed | consignment/validator.go:137-257 | in every accepted container: an operation that spends an output disclosed with seal TxId(u), vout has a witness with input (u, vout); with a witness seal, input (witness of the creator, vout); of genesis, the input that its blind seal names |
| Outputs.WeighSpend | consignment/validator.go:233-236 | spending distinct live outputs takes exactly their weights away |
| Outputs.WeighRegister | consignment/validator.go:424-432 | registering fresh outputs adds exactly their weights |
| Validator.RunReplays | consignment/validator.go:137-257 | an accepted run is the replay of all transitions of all bundles in order |
| Validator.PrefixAccepted | consignment/validator.go:191-251 | every prefix of an accepted sequence is accepted |
| StepRules.ResolvedExactly | consignment/validator.go:162-173 | a witness is the transaction that the chain has, mined or tentative, under its id, or, where allowed, the embedded one that the chain knows nothing of |
| StepRules.UnresolvedExactly | consignment/validator.go:162-173 | which evidence gives which error |
| StepRules.OpenExactly | consignment/validator.go:145-177 | a bundle opens exactly when it commits, its proof convolves, its witness is resolved and the first possible carrier of that carries the commitment |
| StepRules.InputExactly | consignment/validator.go:203-222 | an input passes exactly when it is committed to the operation, not consumed, live, spent by the witness, and free when the witness is prepared; the first check that fails gives the error |
| StepRules.InputsExactly | consignment/validator.go:203-223 | the first input that does not pass decides |
| StepRules.ApplyExactly | consignment/validator.go:191-251 | a transition is accepted exactly when it has inputs, all may be spent, its state obeys the schema, and its disclosed seals can be closed; the first of these that fails gives the error |
| StepRules.CompleteExactly | consignment/validator.go:252-256 | the graph of a run is complete exactly when every bundle discloses all operations that it commits to |
| StepRules.PreparedExactly | consignment/validator.go:181-184 | the prepared transactions of a run are those of its prepared witnesses, the last one under each id |
| StepRules.RunTells | consignment/validator.go:104-257 | both for the history of a container, which runs only after an accepted genesis whose seals can be closed |
| Validation.ScanInputMap | consignment/validator.go:523-541 | true exactly when the map commits the input to the operation |
| Validation.ScanSpends | consignment/validator.go:742-749 | true exactly when the transaction spends the outpoint |
| Validation.OpenBundle | consignment/validator.go:137-173 | commitment, multi-protocol proof, witness and anchor, each with its error |
| Validation.History.RegisterOutputs | consignment/validator.go:411-435 | the states become the registered ones, or the seal's error; which outputs these are, and when it fails: Seals.RegisterSeals |
| Validation.History.CheckInputs | consignment/validator.go:203-222 | the first failing input and check decide |
| Validation.History.Consume | consignment/validator.go:233-236 | the inputs leave the live states and become consumed |
| Validation.History.ApplyTransition | consignment/validator.go:193-250 | all working maps become those of the step, the collector is told, or the step's error; when it passes, its errors and its outputs: StepRules.ApplyExactly, Seals.ApplySeals |
| Validation.History.ApplyBundle | consignment/validator.go:174-256 | all transitions in order; prepared witnesses and completeness are updated |
| Validation.History.ApplyBundles | consignment/validator.go:137-257 | all bundles in order, or the first error |
| Safety.FreshId | consignment/validator.go:203-246 | the id of an accepted transition was never seen before |
| Safety.LiveAfter | consignment/validator.go:233-239 | afterwards exactly the unspent old and the revealed new outputs are live, unchanged |
| Safety.KeepsSafe | consignment/validator.go:191-251 | one accepted transition keeps all safety properties |
| Safety.RunsAreSafe | consignment/validator.go:191-251 | after any accepted sequence: live and consumed apart, each output consumed once, ids distinct, every live or spent output made by genesis or an earlier operation, bundles recorded |
| Balance.StepBalance | consignment/validator.go:224-239 | for any measure of any type: live and concealed afterwards plus inputs equal those before plus all outputs |
| Balance.AmountBalance | schemas/transition.go:153-196 | the same for amounts, in the totals that validation tracked |
| Conservation.GenesisIssues | schemas/validate.go:341-348 | a fixed-supply genesis assigns exactly its issued supply |
| Conservation.SupplyIsConserved | schemas/transition.go:227-237 | at every point live plus concealed amounts are the issued supply (NIA, CFA, PFA) |
| Conservation.GuardNeverFires | schemas/transition.go:186-190 | for distinct live inputs of a fixed-supply asset the overflow guard never refuses |
| Conservation.DuplicateInputsInflate | schemas/transition.go:139-190 | an output named twice would count twice while it is spent once |
| Conservation.GlobalsOfHistory | consignment/validator.go:543-581 | at every point the contract globals are those of genesis and of all accepted transitions, in order |
| Conservation.PermissionNeedsSignature | schemas/transition.go:230-236 | a transition of a permissioned asset is accepted only when signed by the one key its history declared |
| Inflation.InflationTakesRights | schemas/transition.go:139-199 | under the shipped schema an accepted inflation has inputs of inflation rights only; its script does not look at others |
| Inflation.RightsStep | schemas/transition.go:240-245 | a transition keeps the number of link rights, concealed ones included, less those that it burns |
| Inflation.OneLinkRight | schemas/transition.go:238-268 | at every point there is at most one link right |
| Inflation.GenesisAllows | schemas/validate.go:349-363 | genesis assigns the issued supply and, as rights, the rest up to the maximum |
| Inflation.RulesBalance | schemas/transition.go:238-268 | transfers, inflations and burns balance as true sums, without wrap-around |
| Inflation.SupplyIsBounded | schemas/transition.go:238-268 | at every point: issued assets, remaining and burnt rights make up the maximum; existing and burnt assets make up what was issued; so issuance never exceeds the maximum |
| Inflation.NeverRises | schemas/transition.go:238-268 | one transition lowers assets and rights together by exactly what it burns |
| Inflation.NoOverflow | schemas/transition.go:186-190 | for distinct live inputs of assets or rights the overflow guard never refuses |
| Unique.GenesisAllocates | schemas/validate.go:364-372 | genesis allocates its one declared token once: the allocation spells the first four bytes of the token, then 01 00 00 00 00 00 00 00 |
| Unique.TokenMoves | schemas/transition.go:272-277 | an accepted transfer has one asset input and makes one allocation, which spells the first four bytes of the genesis token, then 01 00 00 00 00 00 00 00 |
| Unique.TokenIsUnique | schemas/transition.go:272-277 | at every point exactly one allocation exists; the one of genesis, that of every transition and every live one spell the first four bytes of the genesis token, then 01 00 00 00 00 00 00 00; each operation takes the asset from the operation right before it |
| Accepted.AcceptedSupply | consignment/validator.go:104-257 | after every prefix of the history of any accepted container the supply rule of its schema holds |
| AcceptedExample.ContainerAccepted | consignment/validator.go:104-257 | a concrete container of the shipped IFA schema, with one inflation, that is accepted |
| Agreement.OpenGenuine | consignment/validator.go:145-173 | without prepared witnesses an opened bundle is anchored in a transaction the chain confirms |
| Agreement.PreparedSpendsWhatIsThere | consignment/validator.go:218-222 | what a prepared witness spends is there, unspent or spent by itself, unless only a history report is asked for |
| Agreement.MaskIsHidden | operations/genesis.go:174-182 | the assignment that masks others is never disclosed |
| Agreement.SameAssignment | operations/genesis.go:133-182 | two disclosures of one committed output show the same seal and state |
| Agreement.SameOutput | consignment/validator.go:212-217 | two histories place a shared output in the same outpoint |
| Agreement.SameOperation | consignment/validator.go:145-217 | an operation in two accepted histories has one witness and one bundle |
| Agreement.SameConsumer | consignment/validator.go:203-217 | an output spent in two accepted histories is spent by one operation |
| Agreement.HistoriesAgree | consignment/validator.go:104-257 | both, for any two accepted consignments of one contract under one chain view |
| Ancestors.Tips | consignment/validator.go:356-369 | counts one tip exactly when there is one, and finds it |
| Ancestors.Protected | consignment/validator.go:341-373 | terminals must be known; without any, the bundle of the only tip of a complete graph |
| Ancestors.Settle | consignment/validator.go:383-408 | the worklist settles exactly the ancestors, splits off those outside the protected bundles, and fails exactly on an ancestor missing in the graph |
| Ancestors.HistoricalSideOps | consignment/validator.go:325-409 | historical and selected operations as defined by ancestry, or the error |
| Ancestors.ParentsComeFirst | consignment/validator.go:241-246 | every parent stood in the graph before its child |
| Ancestors.GraphIsClosed | consignment/validator.go:395-399 | in an accepted history no parent is missing, so the unresolved branch is unreachable |
| Ancestors.EverythingBehindTheTip | consignment/validator.go:352-374 | without terminals, with a complete graph and one tip, exactly the operations outside the tip's bundle are historical and all are selected |
| Ancestors.SelectionIsClosed | consignment/validator.go:383-408 | with an operation all that it builds on is selected |
| Report.Collector.RecordConsumption | consignment/history_report.go:84-92 | one record per input, with the output as it was live |
| Report.WitnessStatesMean | consignment/history_report.go:84-92 | a witness is known by the state that its last operation saw it in |
| Report.SortedMeans | consignment/history_report.go:135-144 | sorting keeps the states and makes distinct references strictly ascending |
| Report.Finish | consignment/history_report.go:94-146 | all consumers; for complete graphs the material of selected operations, once each and ascending; prepared states; fails exactly on a missing prepared output |
| Report.HistoricalIsExact | consignment/history_report.go:94-133 | the reported states are exactly the disjoint union of what selected operations spent and left live |
| Report.CurrentStates | consignment/validator.go:277-307 | given exactly when every live output has its number in a prepared transaction, or is known, there, and unspent unless it is history; then exactly the prepared and the unspent ones, with value and script of the prepared output; else the error of an output that fails |
| Report.ProjectionExactly | consignment/validator.go:277-300 | the three cases of a live output and its two errors, in terms of prepared outputs and resolver answers |
| EntryPoints.ValidateWithHistoryReport | consignment/validator.go:104-315 | a container is accepted exactly when its history runs, its terminals are known and its live outputs pass what the mode asks, told in resolver answers; the verdict shows exactly what the mode asks for; which failure gives which error |
| EntryPoints.ValidateAccepts | consignment/validator.go:137-315 | full validation accepts exactly the containers whose history runs, whose terminals host an operation of it, and whose live outputs all stand |
| EntryPoints.ReportIsExact | consignment/history_report.go:59-80 | a history report is exact for the run it was made from |
| EntryPoints.RunModeless | consignment/validator.go:218-222 | without prepared witnesses all modes run a history alike |
| EntryPoints.ModesRefine | consignment/validator.go:80-102 | what Validate accepts ValidateHistory accepts, and that accepts exactly what ValidateHistoryReport accepts |
| EntryPoints.PreparedModesRefine | consignment/validator.go:80-102 | what Validate accepts ValidatePrepared accepts, and what that or ValidateHistoryReport accepts the prepared history report accepts, each from the same run |
| EntryPoints.HistoryAccepted | consignment/validator.go:86-94 | history validation accepts exactly the histories that run and whose terminals are known |
| Merge.MergeItemsInPlace | consignment/merge.go:205-226 | assignments are overwritten in place by the disclosed of two, or the merge fails |
| Merge.MergeOperation | consignment/merge.go:181-229 | entry by entry, equal types and classes, merged lists |
| Merge.EntriesMerge | consignment/merge.go:181-229 | two disclosures of one committed list always merge, in both orders to one list of the same commitment that reveals the union |
| Merge.TransitionsMerge | consignment/merge.go:173-176 | two transitions of one id merge exactly when they commit to the same assignments, and the merge keeps the id |
| Merge.DisclosuresMerge | consignment/merge.go:173-176 | without types 2, two of one id always commit to the same assignments |
| Merge.MergeWitnessBundle | consignment/merge.go:122-179 | witness, anchor and number of transitions must agree; each source transition goes to the one of its id |
| Merge.KnownMerge | consignment/merge.go:148-177 | succeeds exactly when every source transition has a known one of its id with the same assignments; ids stay in place; the union is shown |
| Merge.BundlesMerge | consignment/merge.go:122-179 | succeeds exactly for compatible bundles; id, anchor and operations stay, the union is shown, and the result commits |
| Merge.PlainCompatible | consignment/merge.go:148-171 | without types 2, compatible means: same anchor, as many transitions, and every source operation known |
| MergeHistories.Merger.Load | consignment/merge.go:40-50 | accepts exactly bundles that commit, under distinct ids |
| MergeHistories.Merger.AbsorbBundles | consignment/merge.go:63-79 | shared bundles are merged in place, new ones appended, or the merge fails |
| MergeHistories.MergeContainers | consignment/merge.go:19-80 | the whole merge as a function of the containers |
| MergeHistories.MergeIsUnion | consignment/merge.go:19-80 | the merge lists every bundle once and tells exactly the bundles, operations and revealed outputs that some history tells |
| MergeHistories.MergeCommutes | consignment/merge.go:19-80 | when both orders succeed they tell the same |
| MergeSuccess.BothWays | consignment/merge.go:122-179 | without types 2, two bundles merge in both orders exactly when they share anchor and operations |
| MergeSuccess.MergeSucceeds | consignment/merge.go:19-80 | any number of histories merge exactly when all are of the first one's contract and genesis, the first repeats no bundle, what comes later under a bundle id can be merged into what came first, and the bundles can be counted in 32 bits |
| MergeSuccess.MergeBothWays | consignment/merge.go:19-80 | two histories merge in both orders exactly when neither repeats a bundle, both are of one contract and genesis, and shared bundles can be merged both ways |
| MergeSuccess.MergeSymmetric | consignment/merge.go:52-80 | for histories without repetitions the order never decides |
| MergeSuccess.RepeatedOperations | consignment/merge.go:144-171 | two bundles that merge in one order only |
| MergeSuccess.RepeatedBundles | consignment/merge.go:46-73 | a history that lists a bundle twice merges into one that lists it once, not the other way around |
| MergeSuccess.OnceAndTwice | consignment/merge.go:46-73 | two such histories |
| MergeSuccess.MaskedBundle | consignment/merge.go:144-177 | to every bundle whose operation has 62 assignments there is one of the same id and operation id that merges with it in neither order |
| MergeSuccess.MaskedPair | consignment/merge.go:144-177 | two such bundles |
| MergeOrder.MergeKeepsOrder | consignment/merge.go:63-79 | when all histories disclose parents before children, so does the merge |
| MergeAccepted.AcceptedIsOrdered | consignment/validator.go:137-257 | every accepted container discloses parents before children and no operation twice in a bundle |
| MergeAccepted.AcceptedIsPlain | consignment/validator.go:137-257 | no operation of a container that NIA, CFA, IFA or UDA accept has globals or assignments of type 2 |
| Redisclosure.RegisterExactly | consignment/validator.go:411-435 | registering outputs succeeds exactly when every disclosed seal has a place |
| Redisclosure.ValidatedSame | schemas/transition.go:61-211 | validation judges a transition alike however much of its seals is disclosed |
| Redisclosure.BundlesCovered | consignment/validator.go:137-257 | disclosing more in the bundles of a history that runs keeps it running, with at least the same live outputs |
| HistoryFacts.BundlesRecord | consignment/validator.go:137-257 | after a run every transition is recorded with its bundle, and every output it disclosed is live or consumed |
| MergeValid.Untouched | consignment/validator.go:203-217 | what a bundle of one accepted history spends, another accepted history without that bundle did not consume |
| MergeValid.AbsorbRuns | consignment/merge.go:63-79 | absorbing an accepted history into an accepted one of the same genesis gives one that is accepted, whenever it succeeds |
| MergeValid.MergeIsAccepted | consignment/merge.go:11-80 | when histories that history validation accepts merge, history validation accepts the merge |

## Left out

- SHA-256, secp256k1 and ECDSA: hashes are terms, key tweaking binds internal key and root, the PFA signature check and the validity of keys are unknown predicates.
- RejectList.Parse: lines arrive parsed; trimming, the mark of a rejected line and the syntax of references are string handling.
- Outputs.RegisterMeans: leaves out the carrier binding and the encoded seal disclosure of an output, copies of values validated before.
- Report.Collector.RecordConsumption: leaves out the contract id of a record, one constant per run.
- Report.Finish: leaves out the seal disclosure and the carrier binding of reported states, for the same reason.
- EntryPoints.ValidateWithHistoryReport: leaves out the counters of the report and the carrier bindings.
- MergeHistories.MergeContainers: leaves out that the merged value is encoded and decoded again, for canonical values the identity proved for the codec.
- AluVM library ids and the struct ordering that special-cases them: an external hash order.
- Loading of the type registry, type references, semantic ids, recursion through named types: types are finite resolved trees, and a schema names its types directly.
- Armor, baid64, mnemonics, invoices, PSBT keys, wallet records, relay, memory store, browser and command line: string formats and short state checks.
- Bitcoin serialization: a transaction is its id, the outpoints it spends and its outputs; that an embedded transaction's fields make a transaction is an input.
- The order in which Go iterates maps, where the source lets it decide which of several errors is returned (`Report.CurrentStates`).
- Issuance templates, transition and bundle builders, operation disclosure hashes and the graph of the rejected-ancestor search as built from a container.
- Error messages; the errors a caller can tell apart are kept.
