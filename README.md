# enkan weighted selection tree — a Dafny model

enkan is a slideshow that draws images at random according to a tree of
weights. Each input line names a directory, a list of images or a saved tree,
and carries bracket modifiers (`[50%]`, `[%30]`, `[g2]`, `[>group]`, `[f]`,
`[/]`, a mode such as `[b1w2,1]`). The builders turn these inputs into a tree
of nodes. The tree is indexed by tree-format name (`node_lookup`) and by
filesystem path (`path_lookup`), and that path index may be many-to-one.
Grafting moves a subtree to another level. The trees of several inputs are
merged left to right. The weight calculator then gives every node its share,
following the per-level mode table. Extraction flattens the tree into parallel
lists of images and weights. Beside the tree, the program keeps four bounded
runtime containers:

- an LRU cache;
- a preload queue;
- a back/forward history;
- a bounded stack.

This project models that core and proves properties of the model. Here is how
the model represents the program:

- **Tree and nodes.** A tree is a `class` that owns its lookups.
  - Node attributes live in a map from node id to value.
  - Parent and child links are a value with a rank that makes every upward
    walk terminate.
  - Every mutation of the tree is a method whose `modifies` names the fields it
    changes. Its contract gives the new state in terms of the old one: in full
    for single steps, and for the merge of several trees through a snapshot of
    the base before and after each visited node. The methods named under
    "## Left out" state less.
  - Pure operations are functions on the links and the attribute map.
- **Paths.** Paths follow Windows `ntpath`: drives, UNC prefixes,
  `normpath`, `dirname`, `splitext` and `join`.
- **Numbers.** Proportions and weights are `real`. The weighted-mode power
  `c**exp` is a parameter known only to be positive.
- **The disk.** The filesystem, open files and pickled trees are values the
  operations receive: a map from path to listing or lines, and a set of
  existing files and directories.
- **The random draw.** It is a parameter of `weighted_choice`.
- **Modules.** They follow the program's files:

| module | file | source |
|---|---|---|
| `Common`, `Scan`, `Paths`, `Assoc` | common.dfy, scan.dfy, paths.dfy, assoc.dfy | results and sequence helpers; string scanning, `float`/`int` parsing and `strip`; `ntpath`; the ordered dictionaries of the cache and the queue |
| `Modes` | modes.dfy | `parse_mode_string`, `resolve_mode` and `Defaults` |
| `Modifiers` | modifiers.dfy | the modifier token grammar of `enkan/constants.py` |
| `Nodes`, `TreeModel` | nodes.dfy, tree.dfy | `TreeNode` and `Tree` |
| `Proportions`, `Weights`, `TreeLogic` | proportions.dfy, weights.dfy, tree_logic.dfy | `tree_logic` |
| `Grafting`, `Copying` | grafting.dfy, copy.dfy | `Grafting.handle_grafting`, `set_proportion`, `copy_subtree_as_tree` |
| `Merging`, `MultiSource` | tree_merger.dfy, multi_source.dfy | `TreeMerger`, `MultiSourceBuilder` |
| `InputModels`, `InputProcessing` | input_models.dfy, input_processor.dfy | `input_models`, `InputProcessor.parse_input_line` |
| `ListBuilders`, `TxtBuilder` | list_builders.dfy, txt_builder.dfy | `TreeBuilderLST`, `list_tree_builder`, `TreeBuilderTXT` |
| `Filtering`, `Utils` | filters.dfy, utils.dfy | `Filters`, `utils` |
| `BoundedStack`, `LruCache`, `PreloadQueue`, `History` | stack.dfy, lru_cache.dfy, preload_queue.dfy, history.dfy | `myStack`, `LRUCache`, `PreloadQueue`, `HistoryManager` |

## Model

| member | source | states |
|---|---|---|
| BoundedStack.PyIndex | enkan/utils/myStack.py:45 | Python list indexing: a non-negative index in range gives that element, a negative one down to `-len` counts from the end, anything else is an `IndexError` |
| BoundedStack.Stack.constructor | enkan/utils/myStack.py:6-15 | a new stack is empty and keeps the bound it was given (None for unbounded) |
| BoundedStack.Stack.Push | enkan/utils/myStack.py:17-28 | the triple is appended exactly when the stack is unbounded or below its bound; a full stack is left as it was; the bound invariant is kept |
| BoundedStack.Stack.Pop | enkan/utils/myStack.py:30-41 | an empty stack yields None and stays empty; otherwise the last triple is returned and removed, the rest unchanged |
| BoundedStack.Stack.ReadTop | enkan/utils/myStack.py:43-45 | None for an empty stack; otherwise the root of `stack[len - index]` with Python's negative indexing, and an `IndexError` outside `-len..len-1` |
| BoundedStack.Stack.Clear | enkan/utils/myStack.py:47-49 | the stack becomes empty |
| BoundedStack.Stack.Len | enkan/utils/myStack.py:51-52 | the number of stored triples, never above the bound |
| BoundedStack.Stack.IsEmpty | enkan/utils/myStack.py:54-56 | true exactly when nothing is stored |
| BoundedStack.Stack.IsFull | enkan/utils/myStack.py:58-62 | false when unbounded, else `len >= max_size`; full exactly when a push would be refused |
| LruCache.PutEntries | enkan/cache/LRUCache.py:13-22 | the entries after `put`: an existing key is updated and moved to the front, length unchanged; a new key goes in front and, when that overflows `max_size`, the back entry is evicted; keys stay distinct, the size bound is kept and the key then maps to the new value |
| LruCache.PutKeepsOthers | enkan/cache/LRUCache.py:13-22 | every other key keeps its value, except the back key when a new key overflowed the cache |
| LruCache.MoveToFront | enkan/cache/LRUCache.py:16 | `move_to_end(key, last=False)` puts the key first and keeps the same key/value pairs |
| LruCache.LRUCache.constructor | enkan/cache/LRUCache.py:9-11 | a new cache is empty with the given capacity |
| LruCache.LRUCache.Put | enkan/cache/LRUCache.py:13-22 | the new entries are those of `PutEntries`; distinct keys and the capacity bound are preserved |
| LruCache.LRUCache.Get | enkan/cache/LRUCache.py:24-28 | returns the stored value or None; a miss changes nothing, a hit moves the key to the front |
| LruCache.LRUCache.Pop | enkan/cache/LRUCache.py:30-31 | returns the stored value or None and removes the key, keeping the order of the others |
| LruCache.LRUCache.Clear | enkan/cache/LRUCache.py:33-35 | the cache becomes empty |
| LruCache.LRUCache.Contains | enkan/cache/LRUCache.py:37-38 | true exactly when the key has a value |
| LruCache.LRUCache.Items | enkan/cache/LRUCache.py:46-48 | the pairs in most-recently-used order, with the same lookups as the cache |
| LruCache.LRUCache.Len | enkan/cache/LRUCache.py:50-51 | the number of distinct keys, never above the capacity |
| PreloadQueue.FilterOut | enkan/cache/PreloadQueue.py:50-54 | the rebuilt deque holds exactly the items whose path differs, in their old order |
| PreloadQueue.Queue.constructor | enkan/cache/PreloadQueue.py:9-12 | a new queue is empty, with an empty lookup set and the given bound |
| PreloadQueue.Queue.Push | enkan/cache/PreloadQueue.py:14-29 | a queued path is refused (False, nothing changes); otherwise the item is appended after dropping the oldest one when the queue is full, and True is returned; with `max_size == 0` the `popleft` fails; the lookup set stays the set of queued paths |
| PreloadQueue.Queue.Pop | enkan/cache/PreloadQueue.py:31-40 | None on an empty queue; otherwise the oldest item is removed and returned and its path leaves the lookup set |
| PreloadQueue.Queue.Discard | enkan/cache/PreloadQueue.py:42-55 | False exactly when the path is not queued; the path's item is removed, the others keep their order |
| PreloadQueue.Queue.Clear | enkan/cache/PreloadQueue.py:57-60 | queue and lookup set become empty |
| PreloadQueue.Queue.Contains | enkan/cache/PreloadQueue.py:62-63 | membership in the lookup set is exactly membership in the queue |
| PreloadQueue.Queue.Items | enkan/cache/PreloadQueue.py:68-70 | the items in order; their paths are exactly the lookup set, each once |
| PreloadQueue.Queue.Len | enkan/cache/PreloadQueue.py:65-66 | the number of items equals the size of the lookup set and never exceeds `max_size` |
| PreloadQueue.AppendFresh | enkan/cache/PreloadQueue.py:27-28 | appending an item for a path not yet queued keeps the paths distinct |
| History.DequeAppend | enkan/cache/HistoryManager.py:11 | `deque.append` under `maxlen`: appends while below the bound, otherwise drops the leftmost entry first; a zero bound keeps nothing |
| History.CurrentOf | enkan/cache/HistoryManager.py:59-63 | None exactly for an empty history |
| History.BackStep | enkan/cache/HistoryManager.py:47-51 | at the first entry (or empty) nothing moves and None is returned; otherwise the cursor moves back one and the entry there is returned; the cursor stays valid |
| History.ForwardStep | enkan/cache/HistoryManager.py:53-57 | at the last entry nothing moves and None is returned; otherwise the cursor moves forward one and the entry there is returned |
| History.BackThenForward | enkan/cache/HistoryManager.py:47-57 | a successful `back` followed by `forward_step` returns to the starting cursor and entry |
| History.ForwardThenBack | enkan/cache/HistoryManager.py:47-57 | a successful `forward_step` followed by `back` returns to the starting cursor and entry |
| History.AddStep | enkan/cache/HistoryManager.py:15-26 | the future after the cursor is discarded, the path appended (the oldest entry falling out when the deque is full) and the cursor points at it |
| History.IndexOf | enkan/cache/HistoryManager.py:34-36 | `deque.index`: the first position holding the path, or None (the `ValueError`) when no entry holds it |
| History.RemoveStep | enkan/cache/HistoryManager.py:28-45 | an absent path changes nothing; otherwise its first occurrence is removed and the cursor moves back when the removed entry lay before it, or to the previous entry (-1 when none is left) when it was the current one; removing another entry keeps the current entry |
| History.HistoryManager.constructor | enkan/cache/HistoryManager.py:10-13 | empty history, cursor -1 |
| History.HistoryManager.Add | enkan/cache/HistoryManager.py:15-26 | the pop loop and append give exactly `AddStep`; the cursor invariant and the bound are kept |
| History.HistoryManager.Remove | enkan/cache/HistoryManager.py:28-45 | the new history and cursor are exactly `RemoveStep` |
| History.HistoryManager.Back | enkan/cache/HistoryManager.py:47-51 | history unchanged; cursor and result are `BackStep` |
| History.HistoryManager.Forward | enkan/cache/HistoryManager.py:53-57 | history unchanged; cursor and result are `ForwardStep` |
| History.HistoryManager.Current | enkan/cache/HistoryManager.py:59-63 | the entry under the cursor, None for an empty history |
| History.HistoryManager.Clear | enkan/cache/HistoryManager.py:65-67 | empty history, cursor -1 |
| Paths.Split | enkan/tree/Tree.py:204 | `str.split(sep)`: at least one piece, none containing the separator, and the pieces joined with it give the string back |
| Paths.SplitJoin | enkan/tree/Tree.py:204 | the inverse direction: splitting separator-free pieces joined by the separator gives the pieces back |
| Paths.NonEmpty | enkan/tree/Tree.py:198 | `[p for p in parts if p]`: only non-empty pieces of the input, never more than there were |
| Paths.NonEmptyAppend | enkan/tree/Tree.py:198 | filtering empty pieces distributes over concatenation |
| Paths.NonEmptyOfNonEmpty | enkan/tree/Tree.py:198 | filtering a list without empty pieces changes nothing |
| Paths.Components | enkan/tree/Tree.py:253 | the non-empty, separator-free components of a path |
| Paths.ComponentsOfJoin | enkan/tree/Tree.py:253 | the components of non-empty pieces joined by the separator are those pieces |
| Paths.ComponentsStrip | enkan/tree/Tree.py:198 | `strip(os.path.sep)` before splitting does not change the non-empty components |
| Paths.LStripComponents | enkan/tree/Tree.py:198 | stripping leading separators keeps the components |
| Paths.RStripComponents | enkan/tree/Tree.py:198 | stripping trailing separators keeps the components |
| Paths.SplitSepPrefix | enkan/tree/Tree.py:198 | a leading separator adds one empty piece in front of the split |
| Paths.SplitSepSuffix | enkan/tree/Tree.py:198 | a trailing separator adds one empty piece after the split |
| Paths.LStripSeps | enkan/tree/Tree.py:198 | `lstrip`: a suffix of the input that does not start with a stripped separator |
| Paths.RStripSeps | enkan/tree/Tree.py:198 | `rstrip`: a prefix of the input |
| Paths.Lower | enkan/tree/Tree.py:200 | `str.lower()` on ASCII letters: same length, each character lower-cased |
| Paths.LowerAll | enkan/tree/Tree.py:200 | every piece lower-cased, same number of pieces |
| Paths.LowerJoin | enkan/tree/Tree.py:200 | lower-casing a joined path is joining the lower-cased pieces |
| Paths.LowerAppend | enkan/tree/Tree.py:200 | lower-casing distributes over concatenation |
| Paths.LowerKeepsSepFree | enkan/tree/Tree.py:200 | lower-casing neither adds a separator nor empties a piece |
| Paths.Upper | enkan/tree/Tree.py:154 | `str.upper()` on ASCII letters keeps the length (the UNC prefix test of `splitdrive`) |
| Paths.ReplaceChar | enkan/tree/Tree.py:154 | `str.replace` of one character: same length, exactly that character replaced |
| Paths.Find | enkan/tree/Tree.py:154 | `str.find(c, start)`: the first matching index at or after `start`, or -1 when there is none |
| Paths.RFind | enkan/tree/TreeBuilderTXT.py:362 | `str.rfind`: the last matching index, or -1 |
| Paths.SplitDrive | enkan/tree/Tree.py:154 | `ntpath.splitdrive`: drive and rest concatenate to the path |
| Paths.SplitDrivePlain | enkan/tree/Tree.py:154 | a plain component has no drive |
| Paths.SplitDriveRoot | enkan/tree/Tree.py:154 | a drive root such as `C:\` splits after its colon |
| Paths.UncHasDrive | enkan/tree/Tree.py:154 | a path starting with two separators always has a non-empty drive |
| Paths.LastSepEnd | enkan/tree/Tree.py:230 | the position after the last separator: no separator follows it and a separator precedes it |
| Paths.SplitExt | enkan/tree/TreeBuilderTXT.py:362 | `ntpath.splitext`: root and extension concatenate to the path and the extension is empty or starts with a dot |
| Paths.JoinPlain | enkan/tree/Tree.py:200 | `os.path.join` of plain components is joining them with the separator |
| Paths.JoinFoldPlain | enkan/tree/Tree.py:200 | the argument loop of `ntpath.join` over plain components appends them after one separator each |
| Paths.JoinStepPlain | enkan/tree/Tree.py:200 | one loop step on a plain component appends it after a separator |
| Paths.JoinWithTail | enkan/tree/Tree.py:200 | joining the first plain component, then the rest, is joining all of them |
| Paths.AppendAfterPlain | enkan/tree/Tree.py:200 | a separator is inserted only after a text that does not end in one |
| Paths.JoinDriveRoot | enkan/tree/Tree.py:178 | joining a drive root with plain components puts them straight after the root |
| Scan.DigitsEnd | enkan/utils/input/InputProcessor.py:230 | the greedy end of a digit run: never before its start nor past the text |
| Scan.DigitsEndStops | enkan/utils/input/InputProcessor.py:230 | the run ends at the end of the text or at a non-digit |
| Scan.DigitsEndAll | enkan/utils/input/InputProcessor.py:230 | a run of digits reaching the end of the text is read whole |
| Scan.DigitChar | enkan/utils/input/InputProcessor.py:230 | the character of a digit value is a digit with that value |
| Scan.NatToString | enkan/utils/input/InputProcessor.py:230 | `str(n)` for a natural number is a non-empty digit string |
| Scan.IntToString | enkan/utils/input/InputProcessor.py:230 | `str(n)`: digits, with a leading minus sign for a negative number |
| Scan.DecimalOfNatToString | enkan/utils/input/InputProcessor.py:230 | `int(str(n)) == n` for a natural number |
| Scan.StripLeft | enkan/tree/TreeBuilderLST.py:28 | the leading run of stripped characters removed: a suffix of the input not starting with one |
| Scan.StripRight | enkan/tree/TreeBuilderLST.py:28 | the trailing run removed: a prefix of the input not ending with one |
| Scan.StripWith | enkan/tree/TreeBuilderLST.py:28 | `str.strip(chars)`: neither end of the result is a stripped character |
| Scan.StripWithKeeps | enkan/tree/TreeBuilderLST.py:28 | a text whose ends are not stripped characters is left alone |
| Scan.StripQuotesKeeps | enkan/tree/TreeBuilderLST.py:28 | `strip('"')` leaves a text alone when neither end is a quote |
| Scan.RemoveQuotes | enkan/utils/input/InputProcessor.py:196 | `replace('"', "")` leaves no quote |
| Scan.LastIndexOf | enkan/tree/TreeBuilderLST.py:32 | the comma `rsplit(",", 1)` splits at: the last occurrence, or -1 for none |
| Scan.Pow10 | enkan/tree/TreeBuilderLST.py:36 | powers of ten are at least one |
| Scan.ParseFloatOfDigits | enkan/tree/TreeBuilderLST.py:36 | `float` of a digit string is its decimal value |
| Common.SumRealAppend | enkan/tree/TreeBuilderLST.py:72-76 | `sum` over a concatenation is the sum of the two sums |
| Common.SumRealCons | enkan/tree/TreeBuilderLST.py:72-76 | `sum` with one more leading term adds that term |
| Common.Repeat | enkan/tree/TreeBuilderTXT.py:370-372 | `[x] * n`: `n` copies of `x`, none for a non-positive count |
| Common.NoDupAppend | enkan/tree/TreeNode.py:81-87 | two duplicate-free lists with no common element concatenate to a duplicate-free list |
| Common.NoDupTail | enkan/tree/TreeNode.py:81-87 | the tail of a duplicate-free list is duplicate-free and misses the head |
| Assoc.Find | enkan/cache/LRUCache.py:24-28 | a lookup in the `OrderedDict` succeeds exactly for a present key |
| Assoc.Without | enkan/cache/LRUCache.py:30-31 | `pop(key)`: the key's entries go, its lookup fails, the other keys keep their lookups and order, and no other entry is lost |
| Assoc.KeySetAppend | enkan/cache/PreloadQueue.py:27-28 | the keys of a concatenation are the keys of both parts |
| Assoc.DistinctSize | enkan/cache/LRUCache.py:50-51 | a list without repeated keys has as many entries as keys |
| Assoc.DropLast | enkan/cache/LRUCache.py:22 | `popitem(last=True)` on distinct keys removes exactly the last key and keeps every other lookup |
| Modes.SlopeAt | enkan/utils/Defaults.py:6 | the optional group `,(-?\d+)` at a position either fails or ends strictly after it, inside the text |
| Modes.MatchAt | enkan/utils/Defaults.py:6 | a match of `([bw])(\d+)(?:,(-?\d+))?(?:,(-?\d+))?` anchored at the start is non-empty and fits in the text |
| Modes.FoldMatchesShape | enkan/utils/Defaults.py:11-22 | folding matches whose letter is `b`/`w` (either case) keeps every table entry a lower-case `b`/`w` with exactly two slopes |
| Modes.MatchesLetters | enkan/utils/Defaults.py:7 | every match `findall` returns starts with a `b`/`w` letter, either case |
| Modes.ParseModeStringShape | enkan/utils/Defaults.py:4-23 | every entry of a parsed mode table is `("b"` or `"w", [s1, s2])` |
| Modes.FoldMatchesLast | enkan/utils/Defaults.py:11-22 | after the loop a level is present iff some match has it or it was already there; the last match for a level decides its entry; untouched levels keep their old entry |
| Modes.SlopeText | enkan/constants.py:19 | a written slope group starts with `,`; an absent one is empty text |
| Modes.RenderBlock | enkan/constants.py:19 | a rendered mode block starts with its `b`/`w` letter |
| Modes.MatchesOfBlocks | enkan/utils/Defaults.py:7 | one match per block, in order, each being that block's letter, level and slopes |
| Modes.MatchesRender | enkan/utils/Defaults.py:6-7 | `findall` over a rendered block list finds exactly the blocks, in order |
| Modes.FoldBlocks | enkan/utils/Defaults.py:10-23 | folding the blocks' matches into an empty table: a level is present iff some block has it, and its entry is that of the last such block |
| Modes.ParseRendered | enkan/utils/Defaults.py:4-23 | round trip: parsing a rendered block list yields exactly the levels written, each with the entry of its last block, letter lower-cased and missing slopes as 0 |
| Modes.RenderedIsModeString | enkan/constants.py:19 | every non-empty rendered block list is accepted by `CX_PATTERN` (a concatenation of whole blocks) |
| Modes.MinKey | enkan/utils/Defaults.py:30 | `min(mode_dict.keys())`: a key of the table no larger than any other key |
| Modes.PadSlopes | enkan/utils/Defaults.py:39-43 | a slope list of length at most two is padded with zeros to exactly two, keeping its prefix |
| Modes.ResolveMode | enkan/utils/Defaults.py:26-49 | empty table gives `("w",[0,0])`; a level below the smallest key gives `("l",[0,0])`; a missing level at or above it `("w",[0,0])`; a stored tuple its letter and padded slopes; a bare letter that letter with `[0,0]` |
| Modes.ResolveParsed | enkan/utils/Defaults.py:4-49 | levels from `parse_mode_string` resolve to `b`/`w` with two slopes |
| Modes.Precedence | enkan/utils/Defaults.py:95-137 | the command line wins; otherwise the global setting; otherwise the built-in value |
| Modes.Defaults.constructor | enkan/utils/Defaults.py:53-88 | built-in weight modifier 100, built-in mode, not random, recursing, video on, muted; no global overrides; the command-line mode parsed when given; the other command-line values copied; no groups |
| Modes.Defaults.SetGlobalDefaults | enkan/utils/Defaults.py:139-145 | only the arguments passed are stored; the effective mode, randomness and recursion change exactly when no command-line value shadows them |
| Modes.Defaults.SetGlobalVideo | enkan/utils/Defaults.py:147-151 | only the arguments passed are stored; the effective video and mute change exactly when no command-line value shadows them |
| Modes.Defaults.SetGroup | enkan/utils/input/InputProcessor.py:288-295 | `defaults.groups[name] = bundle`: that group is set and the others are kept |
| Modifiers.CloseIndex | enkan/constants.py:21 | the lazy `.*?\]` after a `[` ends at the first `]`, with no `]` and no newline before it; it fails exactly when every `]` comes after a newline |
| Modifiers.TokenLength | enkan/constants.py:21 | a modifier token is a `[`, then at least nothing, then a `]`, and fits in the line |
| Modifiers.FindModifiers | enkan/utils/input/InputProcessor.py:199 | `MODIFIER_PATTERN.findall(line)`: every item found is a bracketed token |
| Modifiers.StripModifiers | enkan/utils/input/InputProcessor.py:201 | `MODIFIER_PATTERN.sub("", line)` never lengthens the line |
| Modifiers.ScanCovers | enkan/utils/input/InputProcessor.py:199-201 | the tokens found and the stripped rest together account for every character of the line |
| Modifiers.NoModifierUnchanged | enkan/utils/input/InputProcessor.py:201 | a line with no modifier is left as it is |
| Modifiers.UnclosedStaysUnclosed | enkan/constants.py:21 | a `[` with no closing `]` on its line stays unclosed once the rest is stripped |
| Modifiers.StrippedHasNoModifier | enkan/utils/input/InputProcessor.py:199-201 | the stripped line holds no modifier token |
| Modifiers.StripIdempotent | enkan/utils/input/input_models.py:63 | stripping the modifiers twice is stripping them once |
| Nodes.ListedChildPoints | enkan/tree/TreeNode.py:68-70 | in a well-formed tree a listed child names that node as its parent and ranks strictly below it |
| Nodes.Remove | enkan/tree/Tree.py:103 | `[c for c in children if c is not node]`: exactly the other members remain, still without duplicates; a list without the node is unchanged |
| Nodes.Alloc | enkan/tree/TreeNode.py:46-49 | a new node starts with no children and no parent, and the tree stays well formed |
| Nodes.FreshUnreached | enkan/tree/TreeNode.py:59-61 | walking up the parents never meets a node that nobody names as parent |
| Nodes.Below | enkan/tree/TreeNode.py:59-61 | the subtree of a node is exactly the nodes whose parent walk meets it |
| Nodes.Attach | enkan/tree/TreeNode.py:68-70 | `add_child` on a node listed nowhere and not above the parent: it names the parent, becomes its last child, and the tree stays well formed (acyclic, children distinct and pointing back) |
| Nodes.AllocChild | enkan/tree/TreeNode.py:68-70 | a fresh node added with `add_child` becomes the parent's last child with no children, and the tree stays well formed |
| Nodes.Detach | enkan/tree/Tree.py:101-104 | `detach_node`: a node without parent leaves the tree as it was; otherwise it leaves its parent's children and loses its parent, the rest kept; afterwards it is nobody's child and the tree stays well formed |
| Nodes.DetachKeepsApart | enkan/tree/Tree.py:101-104 | a node outside a subtree stays outside once the subtree is detached |
| Nodes.Unlist | slideshow/tree/Grafting.py:79-81 | dropping a node from its parent's list keeps every parent link, and the tree stays well formed |
| Nodes.Level | enkan/tree/TreeNode.py:51-62 | the depth of a node is at least 1 (the root is level 1) |
| Nodes.LevelWalk | enkan/tree/TreeNode.py:51-62 | the `while current.parent` loop returns the depth of the node |
| Nodes.ChildLevel | enkan/tree/TreeNode.py:51-62 | a listed child is exactly one level below its parent |
| Nodes.Siblings | enkan/tree/TreeNode.py:64-66 | no siblings without a parent; every sibling shares the node's parent |
| Nodes.PreOrder | enkan/tree/TreeNode.py:72-87 | the pre-order of a subtree starts with its root and lists only nodes of the tree |
| Nodes.PreOrderFrom | enkan/tree/TreeNode.py:75-78 | the children's pre-orders, concatenated, list only nodes of the tree |
| Nodes.ReachesRank | enkan/tree/TreeNode.py:59-61 | walking up never reaches a node of higher rank |
| Nodes.ReachesParent | enkan/tree/TreeNode.py:59-61 | what lies below a child lies below its parent |
| Nodes.SiblingsApart | enkan/tree/TreeNode.py:68-70 | two siblings both above a node are the same node: sibling subtrees are disjoint |
| Nodes.PreOrderBelow | enkan/tree/TreeNode.py:72-87 | every node of a subtree's pre-order lies below its root |
| Nodes.ChildWithin | enkan/tree/TreeNode.py:72-87 | the pre-order of a subtree holds the children of each of its nodes |
| Nodes.PreOrderNoDup | enkan/tree/TreeNode.py:81-87 | a pre-order lists no node twice |
| Nodes.FindNode | enkan/tree/TreeNode.py:72-79 | `find_node` finds only nodes of the tree carrying the name |
| Nodes.FindFrom | enkan/tree/TreeNode.py:75-79 | the loop over the children finds only nodes carrying the name |
| Nodes.FindNodeIsFirstInPreOrder | enkan/tree/TreeNode.py:72-79 | `find_node` returns the first node with that name in the pre-order of the subtree, None when there is none |
| Nodes.FindFromIsFirst | enkan/tree/TreeNode.py:75-79 | the children's loop returns the first match in their concatenated pre-orders |
| Nodes.AtLevel | enkan/tree/TreeNode.py:81-87 | the filter by level keeps only nodes at the target level |
| Nodes.AtLevelMembers | enkan/tree/TreeNode.py:81-87 | a node is kept exactly when it is listed and at the target level |
| Nodes.AtLevelNoDup | enkan/tree/TreeNode.py:81-87 | filtering by level keeps only listed nodes, without duplicates |
| Nodes.AtLevelAppend | enkan/tree/TreeNode.py:85-86 | filtering a concatenation is concatenating the filtered parts |
| Nodes.NodesAtLevel | enkan/tree/TreeNode.py:81-87 | `get_nodes_at_level` returns only nodes at the target level |
| Nodes.NodesAtLevelFrom | enkan/tree/TreeNode.py:85-86 | the children's results hold only nodes at the target level |
| Nodes.NodesAtLevelIsPreOrder | enkan/tree/TreeNode.py:81-87 | `get_nodes_at_level` lists exactly the subtree's nodes at that level, in pre-order |
| Nodes.CollectSameAsNodesAtLevel | enkan/tree/Tree.py:239-250 | the tree's traversal, which stops descending at a match, gives the same list as the node's, which does not |
| Nodes.NothingDeeper | enkan/tree/Tree.py:242-247 | below a node at or past the target level no node is at the target level |
| Nodes.TallyAppend | enkan/tree/Tree.py:255-264 | counting over a concatenation adds the two counts |
| Nodes.CountBranches | enkan/tree/Tree.py:255-264 | `count_branches`: the number of subtree nodes with images and the total number of images, over the pre-order |
| Nodes.CountBranchesFrom | enkan/tree/Tree.py:261-263 | the recursion over the children counts their concatenated pre-orders |
| TreeModel.RestoredVersion | enkan/tree/Tree.py:32-41 | a restored pickle keeps the version it was stamped with, so a current stamp reads as current; an unstamped pickle reads as version 0, never current |
| TreeModel.ConvertPathToTreeFormat | enkan/tree/Tree.py:195-200 | for a path whose non-drive components are plain, the tree name is `root` and those components, lower-cased and joined by the separator |
| TreeModel.ConvertPlain | enkan/tree/Tree.py:200 | `os.path.join("root", *components).lower()` on plain components is their lower-cased separator join |
| TreeModel.ConvertComponents | enkan/tree/Tree.py:195-200 | the components of a tree name are `root` followed by the path's components, lower-cased |
| TreeModel.TakePy | enkan/tree/Tree.py:217 | Python's `s[:k]`: the first `k` items, or all of them when `k` is past the end |
| TreeModel.Placeholders | enkan/tree/Tree.py:220-222 | `[f"{root}_{i - 1}" for i in range(current, level)]`: one placeholder per missing level, numbered from `current - 1` |
| TreeModel.LevelComponents | enkan/tree/Tree.py:204-206 | `path.split(os.path.sep)`, with a separator put back after a drive, has at least one item |
| TreeModel.GroupRenamed | enkan/tree/Tree.py:208-211 | a group renames components in place and keeps their number |
| TreeModel.SetPathToLevelDepth | enkan/tree/Tree.py:202-227 | without a group, a drive-less path of plain components becomes exactly `level` deep: its basename stays last, the leading components kept are unchanged and `unamed_<i>` fills the gap |
| TreeModel.NoComponentsFail | enkan/tree/Tree.py:202-227 | a path with no non-empty component fails: moving it deeper is the `IndexError` of `path_components[-1]`, any other level the `TypeError` of `os.path.join()` |
| TreeModel.LevelledPartsShape | enkan/tree/Tree.py:216-225 | the truncated or extended component list has `level` plain items, ends in the last component and keeps the leading ones |
| TreeModel.Chain | enkan/tree/Tree.py:138-141 | one (name, path) pair per segment of the prefix walk |
| TreeModel.ChainNamedBy | enkan/tree/Tree.py:138-141 | every pair of the walk carries the tree name its branch gives its path |
| TreeModel.PlanParent | enkan/tree/Tree.py:126-171 | an empty path or `root` goes to the root; a path neither tree-format, UNC nor with a drive is rejected |
| TreeModel.NodeFromDataAsWritten | enkan/tree/Tree.py:57-70 | the node `create_node` builds as written: name, path, images and proportion from the data, no user proportion, no weight |
| TreeModel.NodeFromData | enkan/tree/Tree.py:57-70 | the corrected node: as written, but the user proportion is carried over too |
| TreeModel.ApplyUpdate | enkan/tree/Tree.py:72-94 | `update_node` overwrites exactly the attributes whose keys are present, keeps name, path, group, flat, user proportion and weight, and an empty update changes nothing |
| TreeModel.UpdateIdempotent | enkan/tree/Tree.py:72-94 | applying the same update twice is applying it once |
| TreeModel.RenameInLookup | enkan/tree/Tree.py:51-55 | `rename_node_in_lookup`: a missing old name changes nothing; otherwise the node moves from the old key to the new key, takes the new name, and no other attribute of any node changes |
| TreeModel.Renamed | enkan/tree/Tree.py:43-49 | renaming a subtree keeps every lookup value a node and no node is added or lost |
| TreeModel.RenamedFrom | enkan/tree/Tree.py:44-49 | the loop over the children keeps every lookup value a node and all nodes |
| TreeModel.RenamedOnlyNames | enkan/tree/Tree.py:43-49 | renaming a subtree changes node names and nothing else of any node |
| TreeModel.RenamedFromOnlyNames | enkan/tree/Tree.py:44-49 | the children's loop changes node names and nothing else |
| TreeModel.ChainStart | enkan/tree/Tree.py:137-139 | before the first segment nothing has been built |
| TreeModel.ChainFound | enkan/tree/Tree.py:142-148 | a prefix the lookup already knows is reused and nothing changes |
| TreeModel.ChainFreshNew | enkan/tree/Tree.py:143-147 | a missing prefix gets a node below the current one, registered under its name and its path |
| TreeModel.ChainFreshOld | enkan/tree/Tree.py:143-147 | creating a later prefix leaves the nodes of earlier missing prefixes where they were |
| TreeModel.ChainMade | enkan/tree/Tree.py:143-148 | one more step of the walk keeps everything the walk guarantees |
| TreeModel.RootLinks | enkan/tree/Tree.py:18 | a fresh tree is a lone root without parent or children |
| TreeModel.Tree.constructor | enkan/tree/Tree.py:16-24 | a lone root named and pathed `root`, registered in the node, path and virtual-image lookups, with the given defaults and filters |
| TreeModel.Tree.GetNodesAtLevel | enkan/tree/Tree.py:239-250 | the nodes at the target level, in pre-order, each at that level |
| TreeModel.Tree.CountBranchesOf | enkan/tree/Tree.py:255-264 | `count_branches`: (0, 0) for None, else the counts over the subtree |
| TreeModel.Tree.NewChild | enkan/tree/TreeNode.py:68-70 | a fresh node becomes the parent's last child with the given attributes; nothing else changes |
| TreeModel.Tree.AddChild | enkan/tree/TreeNode.py:68-70 | a node listed nowhere and not above the parent becomes the parent's last child and names it |
| TreeModel.Tree.DetachNode | enkan/tree/Tree.py:101-104 | `detach_node` on the tree: the links become those of `Nodes.Detach` and the node is nobody's child |
| TreeModel.Tree.RenameNodeInLookup | enkan/tree/Tree.py:51-55 | the lookup and attributes become those of `RenameInLookup` |
| TreeModel.Tree.RenameChildren | enkan/tree/Tree.py:43-49 | the loop with its recursion leaves the lookup and attributes of `Renamed` |
| TreeModel.Tree.UpdateNode | enkan/tree/Tree.py:72-94 | nothing for a None node, else exactly that node's attributes become `ApplyUpdate` of them |
| TreeModel.Tree.RegisterVirtualImage | enkan/tree/TreeBuilderTXT.py:387 | the image is looked up as the node made for it; other lookups kept |
| TreeModel.Tree.AddNode | enkan/tree/Tree.py:106-112 | an unknown parent name raises `ValueError` and changes nothing; otherwise the node becomes that parent's last child and is registered by name and by path |
| TreeModel.Tree.RegisterChild | enkan/tree/Tree.py:143-147 | a prefix node: a fresh child of the current node, registered under its name and its path |
| TreeModel.Tree.WalkedParts | enkan/tree/Tree.py:137-149 | what a finished walk guarantees: the tree is well formed, paths are only added, pre-existing nodes untouched, every prefix present and the result the last prefix's node |
| TreeModel.Tree.VisitPrefix | enkan/tree/Tree.py:142-148 | one step of the walk: the prefix's name is registered and the step returns its node |
| TreeModel.Tree.BuildChain | enkan/tree/Tree.py:137-149 | the walk over all segments leaves every prefix built |
| TreeModel.Tree.EnsureParentExists | enkan/tree/Tree.py:114-193 | the root, unchanged, for an empty or `root` path; `ValueError`, unchanged, for a relative path; otherwise every prefix node exists under its name, existing ones reused and unchanged, and the last one is returned |
| TreeModel.PlanParentRejectsOnlyRelative | enkan/tree/Tree.py:152-170 | the only path `ensure_parent_exists` rejects is a relative one: a path starting with two separators always has a drive, so the malformed UNC error is never raised |
| TreeModel.Tree.FollowPlan | enkan/tree/Tree.py:126-193 | the tree-changing part, once the path is classified: the root, a `ValueError`, or the finished walk |
| TreeModel.Tree.CreateNode | enkan/tree/Tree.py:57-70 | a rejected parent path raises `ValueError` and changes nothing; on success a fresh node with no children and the attributes of `NodeFromData` is registered under the tree name of the path and under the path, and is the last child of the node named by the tree form of `dirname(path)`; pre-existing nodes untouched |
| Proportions.SetSumFront | enkan/tree/tree_logic.py:124 | the total of the set proportions, taken from the front: the first node's proportion (0 if unset) plus the rest |
| Proportions.SetSumOne | enkan/tree/tree_logic.py:124 | the set total of one node is its proportion, or 0 |
| Proportions.LoneFill | enkan/tree/tree_logic.py:128-171 | a lone unset node filled in balanced or weighted mode ends with exactly 100 |
| Proportions.NothingSet | enkan/tree/tree_logic.py:124-125 | a group with nothing set: every node is unset and the set total is zero |
| Proportions.Remaining | enkan/tree/tree_logic.py:126 | `max(0, 100 - total_set)`: never negative, at least `100 - total_set`, and with the set total it makes `max(total_set, 100)` |
| Proportions.EqualShares | enkan/tree/tree_logic.py:133-135 | one equal share per unset node |
| Proportions.Exponent | enkan/tree/tree_logic.py:150-156 | the weighted-mode exponent is never below 0.01 |
| Proportions.Powered | enkan/tree/tree_logic.py:148-157 | the powered count of a node is strictly positive (counts clamped to at least 1, inverted for a negative slope) |
| Proportions.PoweredList | enkan/tree/tree_logic.py:147-157 | one strictly positive powered count per unset node |
| Proportions.ShareList | enkan/tree/tree_logic.py:159-160 | one weighted share per unset node |
| Proportions.Shares | enkan/tree/tree_logic.py:131-160 | shares exist exactly in modes `b` and `w`, one per unset node; any other mode assigns nothing |
| Proportions.AssignUnset | enkan/tree/tree_logic.py:134-135 | assigning the shares keeps the group's size |
| Proportions.ScaleSet | enkan/tree/tree_logic.py:166-170 | scaling the set proportions keeps the group's size |
| Proportions.FillGroup | enkan/tree/tree_logic.py:98-171 | `_fill_missing_proportions` keeps the group's size |
| Proportions.SumRepeat | enkan/tree/tree_logic.py:133-135 | `n` copies of a value add up to `n` times it |
| Proportions.SumShareList | enkan/tree/tree_logic.py:159-160 | the weighted shares add up to the remainder times the powered sum over the total |
| Proportions.SumPositive | enkan/tree/tree_logic.py:158 | a non-empty sum of positive powered counts is positive, so the `or 1` fallback never applies |
| Proportions.EqualSharesSum | enkan/tree/tree_logic.py:133-135 | equal shares add up to the remainder |
| Proportions.WeightedSharesSum | enkan/tree/tree_logic.py:147-160 | weighted shares add up to the remainder |
| Proportions.SharesSum | enkan/tree/tree_logic.py:131-160 | in both modes that assign, the shares add up to the remainder |
| Proportions.SetSumAssign | enkan/tree/tree_logic.py:134-135 | giving the unset nodes values adds those values to the set total |
| Proportions.SetSumScale | enkan/tree/tree_logic.py:166-170 | scaling multiplies the set total by the factor |
| Proportions.AssignUnsetSets | enkan/tree/tree_logic.py:134-135 | once assigned, no node of the group is unset |
| Proportions.ScaledTo100 | enkan/tree/tree_logic.py:162-170 | scaling by `100 / total` brings a non-zero total to exactly 100 |
| Proportions.FillSumsTo100 | enkan/tree/tree_logic.py:98-171 | after filling a group with an unset node, the set proportions add up to exactly 100, whenever the mode assigns or something was already set |
| Proportions.FillWithNothingUnset | enkan/tree/tree_logic.py:128-129 | with nothing unset the group comes back unchanged: no renormalisation happens |
| Proportions.ShareListAt | enkan/tree/tree_logic.py:159-160 | the `k`-th weighted share is the remainder times that node's powered count over the total |
| Proportions.SharesPositive | enkan/tree/tree_logic.py:131-160 | with something left to share every share is strictly positive, in both modes |
| Proportions.AssignUnsetAt | enkan/tree/tree_logic.py:134-135 | assigning keeps every set proportion and gives every unset node one of the shares |
| Proportions.ScaleSetAt | enkan/tree/tree_logic.py:168-170 | the `k`-th proportion after scaling is that proportion scaled, or still unset |
| Proportions.ScaledPositive | enkan/tree/tree_logic.py:168-170 | a positive proportion stays positive under a positive factor |
| Proportions.FillAssigns | enkan/tree/tree_logic.py:131-171 | in a mode that assigns, the assigned total is at least 100 and filling is exactly scaling it by `100 / total` |
| Proportions.FillUnsetPositive | enkan/tree/tree_logic.py:98-171 | when the set proportions leave something to share, every unset node ends strictly positive and every set node stays set |
| Proportions.BalancedExample | enkan/tree/tree_logic.py:131-135 | an example of `FillSumsTo100`: of four siblings with one set to 40, in balanced mode the other three get 20 each and the 40 stays |
| TreeLogic.WriteProportions | enkan/tree/tree_logic.py:134-135 | the loop writing the shares: the tree's shape is kept and the proportions become those of `Weights.SetProps` |
| TreeLogic.FillMissingProportions | enkan/tree/tree_logic.py:98-171 | `_fill_missing_proportions` on the tree: the shape is kept and the attributes become `Weights.FillTree` of the group |
| TreeLogic.ProcessNode | enkan/tree/tree_logic.py:49-96 | `_process_node(n, aw)`: the shape is kept and the attributes become `Weights.Weigh` of them |
| TreeLogic.ProcessFamily | enkan/tree/tree_logic.py:78-96 | for a node with children: the children filled under the child policy, then weighed in order |
| TreeLogic.ProcessChildren | enkan/tree/tree_logic.py:93-96 | the loop over the children gives the attributes of `Weights.WeighKids` |
| TreeLogic.ResetProportions | enkan/tree/tree_logic.py:173-179 | `_reset_proportions(n)`: the attributes become `Weights.ResetTree` of them |
| TreeLogic.ResetChildren | enkan/tree/tree_logic.py:178-179 | the loop over the children gives `Weights.ResetKids` |
| TreeLogic.WeighStartingNodes | enkan/tree/tree_logic.py:195-200 | the loop over the starting nodes gives `Weights.WeighStarts` |
| TreeLogic.WeighStart | enkan/tree/tree_logic.py:196-200 | one starting node: given 100 when still unset, then weighed from its share of `TOTAL_WEIGHT` |
| TreeLogic.CalculateWeights | enkan/tree/tree_logic.py:34-200 | `calculate_weights`: the error and the attributes are those of `Weights.CalculateWeights`, and the tree stays valid |
| TreeLogic.NodeImages | enkan/tree/tree_logic.py:235-243 | the images of one node with their normalised weight, or the error the division raises, exactly `Weights.NodeEntries` |
| TreeLogic.TraverseNode | enkan/tree/tree_logic.py:232-245 | `traverse_node(n)` extracts the entries of the pre-order of the subtree |
| TreeLogic.ExtractImagePathsAndWeights | enkan/tree/tree_logic.py:207-251 | from the root when no start is given: the entries of the pre-order, with as many weights as images |
| TreeLogic.BuildTree | enkan/tree/tree_logic.py:26-31 | a tree without images raises `ValueError` and is left as it was; otherwise the weights of `calculate_weights(tree)` |
| TreeLogic.UserProportionLost | enkan/tree/Tree.py:57-70 | a node `create_node` builds as written loses its user proportion at the reset; the corrected node keeps it |
| TreeLogic.ChildMode | enkan/tree/tree_logic.py:78-82 | the child policy computed with the node's level known is the `Weights.ChildPolicy` |
| TreeLogic.EntriesFront | enkan/tree/tree_logic.py:235-245 | the entries of a subtree are the node's own, then those of its children's subtrees |
| TreeLogic.EntriesStep | enkan/tree/tree_logic.py:244-245 | the entries from the `i`-th child on are those of its subtree, then those of the later children |
| Weights.Props | enkan/tree/tree_logic.py:124 | the proportions of a group, one per node, in the group's order |
| Weights.UnsetNodes | enkan/tree/tree_logic.py:125 | `[n for n in nodes if n.proportion is None]`: as many as the group has unset proportions, each an unset member |
| Weights.Counts | enkan/tree/tree_logic.py:147-149 | one image count per unset node, as `count_fn` gives it |
| Weights.SetProps | enkan/tree/tree_logic.py:134-135 | writing proportions keeps the set of nodes |
| Weights.SetPropsStep | enkan/tree/tree_logic.py:134-135 | writing one more node's proportion extends the prefix written so far |
| Weights.FillTree | enkan/tree/tree_logic.py:98-171 | `_fill_missing_proportions` on the tree keeps the set of nodes |
| Weights.SetPropsEffect | enkan/tree/tree_logic.py:134-135 | writing proportions into distinct nodes changes only proportions, gives the group exactly the values written, and leaves every other node as it was |
| Weights.SameProps | enkan/tree/tree_logic.py:134-135 | two ways of writing the same proportions into the same group agree everywhere |
| Weights.FillTreeEffect | enkan/tree/tree_logic.py:98-171 | filling a group of distinct nodes changes only their proportions, makes them `FillGroup` of their old proportions and counts, and leaves every other node alone |
| Weights.Weigh | enkan/tree/tree_logic.py:49-96 | `_process_node` keeps the set of nodes |
| Weights.FillKids | enkan/tree/tree_logic.py:78-91 | filling the children under the child policy keeps the set of nodes |
| Weights.FillKidsEffect | enkan/tree/tree_logic.py:84-91 | filling the children changes only their proportions |
| Weights.WeighKids | enkan/tree/tree_logic.py:93-96 | the loop over the children keeps the set of nodes |
| Weights.ResetTree | enkan/tree/tree_logic.py:173-179 | `_reset_proportions` keeps the set of nodes |
| Weights.ResetKids | enkan/tree/tree_logic.py:178-179 | the loop over the children keeps the set of nodes |
| Weights.Starts | enkan/tree/tree_logic.py:183-184 | the starting nodes: distinct nodes of the tree, never empty (the root when no node is at the lowest rung) |
| Weights.Seed | enkan/tree/tree_logic.py:196-198 | a starting node still unset is given a proportion; nothing else changes |
| Weights.WeighStarts | enkan/tree/tree_logic.py:195-200 | the loop over the starting nodes keeps the set of nodes |
| Weights.Calc | enkan/tree/tree_logic.py:183-200 | the calculation after the reset keeps the set of nodes |
| Weights.CalculateWeights | enkan/tree/tree_logic.py:34-200 | `calculate_weights` fails exactly on an empty mode table, with the `ValueError` of `min` of no keys, and keeps the set of nodes |
| Weights.NodeEntries | enkan/tree/tree_logic.py:235-243 | one weight per image, images in order; an error exactly for a node with images and either no weight (`TypeError`) or a non-percentage zero modifier (`ZeroDivisionError`) |
| Weights.Entries | enkan/tree/tree_logic.py:232-245 | the extraction yields as many weights as images |
| Weights.OnlyPropsRetains | enkan/tree/tree_logic.py:98-171 | changing only proportions keeps everything the weight pass relies on |
| Weights.BelowNotSibling | enkan/tree/TreeNode.py:68-70 | a node strictly below a child is not that child's sibling |
| Weights.WeighFrame | enkan/tree/tree_logic.py:49-96 | `_process_node(n, aw)` gives `n` its weight from `aw` and its modifier, changes only proportions and weights, and only inside the subtree of `n` |
| Weights.WeighCompose | enkan/tree/tree_logic.py:69-96 | the frame of `_process_node` out of the frames of its two steps |
| Weights.WeighKidsFrame | enkan/tree/tree_logic.py:93-96 | the loop over the children from the `i`-th on changes only nodes below those children |
| Weights.ResetOneTwice | enkan/tree/tree_logic.py:174-177 | resetting one node twice is resetting it once |
| Weights.ResetEffect | enkan/tree/tree_logic.py:173-179 | `_reset_proportions(n)` resets exactly the nodes of the subtree of `n` |
| Weights.ResetKidsEffect | enkan/tree/tree_logic.py:178-179 | the loop resets exactly the nodes of the children's subtrees from the `i`-th child on |
| Weights.ResetIdempotent | enkan/tree/tree_logic.py:173-179 | resetting a subtree twice is resetting it once |
| Weights.ThenAssoc | enkan/tree/tree_logic.py:241-245 | appending extracted entries is associative |
| Weights.EntriesAppend | enkan/tree/tree_logic.py:244-245 | extracting from two runs of nodes is extracting from each in turn |
| Weights.EntriesAgree | enkan/tree/tree_logic.py:232-245 | extraction reads only the nodes it visits |
| Weights.EvenRetains | enkan/tree/tree_logic.py:49-96 | the shape the sum theorem needs survives the weight pass |
| Weights.KidsTotalIsSetSum | enkan/tree/tree_logic.py:93-96 | the children's proportions added from the `i`-th on are the set total of that part of the group |
| Weights.KidsTotalAgree | enkan/tree/tree_logic.py:93-96 | that total reads only the children it adds up |
| Weights.FillKidsTotal | enkan/tree/tree_logic.py:84-91 | filling children none of which is set, in balanced or weighted mode, gives them proportions summing to 100 |
| Weights.ThenSum | enkan/tree/tree_logic.py:241-245 | the weights of two extractions in sequence add up |
| Weights.LeafSum | enkan/tree/tree_logic.py:235-243 | a percentage node with images spreads exactly its weight over them |
| Weights.FullWeight | enkan/tree/tree_logic.py:69-73 | a 100% percentage node keeps all it is apportioned |
| Weights.RestApart | enkan/tree/tree_logic.py:93-96 | nodes after the `i`-th child's subtree do not lie below it |
| Weights.KidStepSum | enkan/tree/tree_logic.py:93-96 | weighing the `i`-th child puts exactly its share into the images below it |
| Weights.KidStepKeep | enkan/tree/tree_logic.py:93-96 | weighing the `i`-th child keeps the later children ready and their proportions unchanged |
| Weights.KeepAfterKid | enkan/tree/tree_logic.py:93-96 | what lies outside the `i`-th child's subtree, kept, keeps the later children ready and their total |
| Weights.HereKept | enkan/tree/tree_logic.py:93-96 | the later children leave the `i`-th child's subtree alone |
| Weights.KidsJoin | enkan/tree/tree_logic.py:93-96 | one loop step in sums: the `i`-th child's share followed by the rest is the share of all children from `i` on |
| Weights.KidStep | enkan/tree/tree_logic.py:93-96 | the `i`-th loop step: the child's share and the state it leaves for the rest |
| Weights.WeighKidsStep | enkan/tree/tree_logic.py:93-96 | the loop over the children with one step unrolled |
| Weights.WeighKidsSum | enkan/tree/tree_logic.py:93-96 | under the even shape the children from the `i`-th on hand their images `w` times their proportion total over 100 |
| Weights.KidsFromSum | enkan/tree/tree_logic.py:93-96 | the same when there is an `i`-th child: its step, then the rest |
| Weights.FilledKids | enkan/tree/tree_logic.py:78-91 | once `n` has its weight, filling its children makes their proportions add to 100 and leaves them ready |
| Weights.WeighSum | enkan/tree/tree_logic.py:49-96 | under the even shape with nothing set below `n`, the images below `n` carry exactly the weight `n` is apportioned |
| Weights.LeafWeighSum | enkan/tree/tree_logic.py:69-76 | the same for a childless node |
| Weights.InnerWeighSum | enkan/tree/tree_logic.py:78-96 | the same for a node with children |
| Weights.InnerJoin | enkan/tree/tree_logic.py:93-96 | a node with children and no images: what its children hand out is the whole |
| Weights.EntriesShape | enkan/tree/tree_logic.py:232-245 | extraction emits the images of the visited nodes in order, and fails exactly when one of them fails |
| Weights.TallyCountsImages | enkan/tree/Tree.py:255-264 | the image total of `count_branches` is the number of entries extraction emits |
| Weights.SharingPolicy | enkan/utils/Defaults.py:26-49 | a `b`/`w` table with lowest rung 1, merged with a `b`/`w` modifier, resolves every level from 2 on to `b` or `w` |
| Weights.ShapeIsEven | enkan/tree/tree_logic.py:78-82 | under such a table the even attribute shape makes every node of the subtree even |
| Weights.NodeIsEven | enkan/tree/tree_logic.py:78-82 | each node of an even-shaped subtree is even |
| Weights.ChildPolicySharing | enkan/tree/tree_logic.py:78-82 | under such a table and modifier the children are filled in `b` or `w` |
| Weights.ResetClears | enkan/tree/tree_logic.py:173-179 | the reset changes only proportions, and clears them when user proportions are ignored or absent |
| Weights.StartsAtRoot | enkan/tree/tree_logic.py:183-184 | with lowest rung 1, the root is the only starting node |
| Weights.LoneStartFilled | enkan/tree/tree_logic.py:188-193 | filling a lone unset starting node in `b` or `w` gives it all of 100 |
| Weights.BelowRootUnset | enkan/tree/tree_logic.py:188-193 | once only the root is filled nothing strictly below it is set |
| Weights.ResetReady | enkan/tree/tree_logic.py:181 | after the reset the tree is even and nothing in it is set |
| Weights.RootReady | enkan/tree/tree_logic.py:186-193 | filling the root alone, in the policy of level 1, gives it 100 and leaves it ready to weigh |
| Weights.ReadyAfterRoot | enkan/tree/tree_logic.py:188-193 | changing only the root's proportion keeps the tree even and everything below unset |
| Weights.CalcFromRoot | enkan/tree/tree_logic.py:183-200 | with the root as sole starting node, the calculation is weighing the root from `TOTAL_WEIGHT` |
| Weights.CalculateSum | enkan/tree/tree_logic.py:34-200 | total-weight theorem: lowest rung 1, `b`/`w` letters, every node 100% percentage, images exactly on childless nodes and no user proportion in force, the calculation succeeds and the image weights add up to `TOTAL_WEIGHT` |
| Grafting.GraftLevel | slideshow/tree/Grafting.py:42-48 | the level used is the caller's when it is set and non-zero, else the group's when that is set and non-zero; otherwise there is none and grafting stops; a level in use is never 0 |
| Grafting.Pruned | slideshow/tree/Grafting.py:74-87 | the prune walk keeps the links well formed and leaves every parent link in place; the removed nodes and the stop node are nodes of the tree |
| Grafting.PrunedUnfold | slideshow/tree/Grafting.py:76-85 | on a prunable node the walk drops it from its parent's children and its name from the lookup, records it, and carries on from its parent |
| Grafting.PrunedLookup | slideshow/tree/Grafting.py:83-84 | the node lookup loses exactly the names of the removed nodes |
| Grafting.PrunedEmptied | slideshow/tree/Grafting.py:75-76 | every removed node is not the root, has no images and ends up with no children |
| Grafting.PrunedShrinks | slideshow/tree/Grafting.py:79-81 | children lists only lose entries |
| Grafting.PrunedOnlyGone | slideshow/tree/Grafting.py:79-81 | any entry a children list loses is a removed node |
| Grafting.PrunedChain | slideshow/tree/Grafting.py:74-85 | the removed nodes form the chain of parent links from the start node upwards, in walk order |
| Grafting.PrunedEnd | slideshow/tree/Grafting.py:85 | the walk ends at the parent of the last removed node, or at the start node when nothing was removed |
| Grafting.PrunedStops | slideshow/tree/Grafting.py:75-87 | the walk stops only at no node, at the root, or at a node that still has images or children |
| Grafting.PrunedHalted | slideshow/tree/Grafting.py:75-87 | a walk that starts at no node or at a node that is not prunable changes nothing |
| Grafting.PruneOne | slideshow/tree/Grafting.py:77-84 | one removal: the node leaves its parent's children list, which is all that changes in the links, and its name leaves the node lookup |
| Grafting.PruneStep | slideshow/tree/Grafting.py:76-85 | one round of the loop keeps the tree valid, keeps the same final outcome, and moves to a strictly shallower node |
| Grafting.PruneEmpty | slideshow/tree/Grafting.py:74-87 | the whole prune loop leaves the tree valid, with the links and the lookup that the walk `Pruned` computes |
| Grafting.Marked | slideshow/tree/Grafting.py:95-96 | `child.mode_modifier = {level: mode}` on the listed nodes keeps the same set of nodes |
| Grafting.MarkLevel | slideshow/tree/Grafting.py:95-96 | each listed node's mode modifier becomes the one-entry table of that level, and no other node changes |
| Grafting.Modified | slideshow/tree/Grafting.py:90-96 | once the applied levels are done, every node of the grafted subtree at such a level holds exactly that level's entry; the set of nodes stays the same |
| Grafting.ModifiedOnly | slideshow/tree/Grafting.py:94-96 | only mode modifiers change, each to the one-entry table of the node's own level |
| Grafting.ModifiedOutside | slideshow/tree/Grafting.py:95 | nodes outside the grafted subtree keep their attributes |
| Grafting.ModifiedNone | slideshow/tree/Grafting.py:93-94 | with no level applied yet, no node has changed |
| Grafting.ModifiedStep | slideshow/tree/Grafting.py:94-96 | marking the nodes at one more level extends the set of levels done by that level |
| Grafting.ModifiedStepAt | slideshow/tree/Grafting.py:94-96 | the same step, for a single node |
| Grafting.ApplyLevel | slideshow/tree/Grafting.py:95-96 | one round of the level loop adds its level to the levels done |
| Grafting.ApplyModeModifiers | slideshow/tree/Grafting.py:93-96 | after the loop over the whole mode-modifier table, every level of the table is applied to the grafted subtree |
| Grafting.EffectiveLevel | slideshow/tree/Tree.py:437-460 | the group's graft level when it is set, else the smallest mode-modifier level, else none |
| Grafting.AncestorAt | slideshow/tree/Tree.py:463-468 | the upward walk of `set_proportion` returns only nodes of the tree |
| Grafting.ReachesLevel | slideshow/tree/Tree.py:466-467 | an ancestor is never deeper than its descendant |
| Grafting.AncestorAtExactly | slideshow/tree/Tree.py:463-468 | the walk finds a node exactly when that node is the start node or an ancestor of it at the target level (both directions) |
| Grafting.WalkToLevel | slideshow/tree/Tree.py:464-468 | the loop, which recomputes the level at each step, returns the ancestor `AncestorAt` names |
| Grafting.ProportionSet | slideshow/tree/Tree.py:430-470 | `set_proportion` keeps the same set of nodes |
| Grafting.ProportionSetOnly | slideshow/tree/Tree.py:430-470 | the group's proportion is written only on an ancestor (or the node itself) at the effective level, and nothing changes when the group has no proportion |
| Grafting.SetProportion | slideshow/tree/Tree.py:407-470 | the method changes the node attributes exactly as `ProportionSet` says |
| Grafting.GroupApplied | slideshow/tree/Grafting.py:90-97 | the group step keeps the same set of nodes |
| Grafting.GroupAppliedOnly | slideshow/tree/Grafting.py:90-97 | the group step changes only mode modifiers and proportions |
| Grafting.ApplyGroup | slideshow/tree/Grafting.py:90-97 | mode modifiers are applied when the table is non-empty, then `set_proportion`; the tree stays valid and the grafted node's path is kept |
| Grafting.ReachesOtherParent | slideshow/tree/Grafting.py:65-66 | if two sets of links differ only in one node's parent, a walk that reaches that node over the new links also reaches it over the old ones |
| Grafting.ReachesSameUp | slideshow/tree/Grafting.py:79-81 | whether a node lies below another depends only on the parent links, not on the children lists |
| Grafting.RemoveKeepsLast | slideshow/tree/Grafting.py:79-81 | filtering another node out of a children list keeps its last entry |
| Grafting.PrunedKeepsLast | slideshow/tree/Grafting.py:74-87 | a prune walk from a node the grafted node does not lie above keeps the grafted node as the last child of its new parent |
| Grafting.PrunedKeepsLastStep | slideshow/tree/Grafting.py:76-85 | the same, for one pruned node |
| Grafting.ParentNotBelow | slideshow/tree/Grafting.py:56 | a node's parent does not lie below that node |
| Grafting.Move | slideshow/tree/Grafting.py:65-66 | detach-then-append leaves the links `Moved` describes: the node's parent link, and no other, becomes the new parent |
| Grafting.Moved | slideshow/tree/Grafting.py:65-66 | detaching the node and appending it to a parent not below it keeps the links well formed and changes exactly one parent link, the node's, to that parent |
| Grafting.MovedFacts | slideshow/tree/Grafting.py:65-66 | after the move the node is the last child of its new parent, and its old parent does not lie below it |
| Grafting.DetachedUp | slideshow/tree/Grafting.py:65-66 | after re-parenting, the node's parent link does not depend on what detaching did |
| Grafting.MovedApart | slideshow/tree/Grafting.py:65-66 | after the move, the old parent still does not lie below the moved node |
| Grafting.Rename | slideshow/tree/Grafting.py:67-71 | the lookup and the attributes become those `RenamedAt` computes: the node renamed in the lookup to the levelled name, its path set to the original root path, its subtree renamed below the new name |
| Grafting.RenamedAt | slideshow/tree/Grafting.py:67-71 | the renames keep the set of nodes, and every name of the new lookup still finds a node |
| Grafting.RenamedAtPath | slideshow/tree/Grafting.py:68 | after the renames the grafted node's path is the original root path |
| Grafting.RenamedInLookup | slideshow/tree/Grafting.py:67 | after the rename, the lookup finds the node under the levelled name and the node carries that name, with its path unchanged |
| Grafting.Graft | slideshow/tree/Grafting.py:65-97 | once the new parent is known, the new state is the one `GraftedFrom` describes: the links are `Moved`, then the renames of `RenamedAt`, then the prune of the old parent chain (`Pruned`) and the group step (`GroupApplied`); the next id and the path lookup are unchanged |
| Grafting.GraftedLinks | slideshow/tree/Grafting.py:65-97 | after such a graft the node's parent link is the new parent and the node is that parent's last child |
| Grafting.GraftedPath | slideshow/tree/Grafting.py:65-97 | after such a graft the node's path is the original root path |
| Grafting.GraftBelow | slideshow/tree/Grafting.py:65-97 | a move that would put the node below itself, or move the root, is refused and changes nothing; any other graft leaves the state `GraftedFrom` describes |
| Grafting.GraftUnder | slideshow/tree/Grafting.py:61-97 | the parent is the node `ensure_parent_exists` gives for the directory of the levelled name (`ParentEnsured`); its error leaves the tree untouched; otherwise the graft below that parent follows |
| Grafting.RenameAndSettle | slideshow/tree/Grafting.py:67-97 | the lookup and attributes become those of `RenamedAt`, then the links, attributes and lookup become those `Settled` computes from them: the prune walk `Pruned` from the old parent, then `GroupApplied` |
| Grafting.Settle | slideshow/tree/Grafting.py:74-97 | the links, attributes and lookup become those of `Settled`: the prune walk `Pruned` from the old parent, then the group step `GroupApplied` on the grafted node |
| Grafting.SettledLinks | slideshow/tree/Grafting.py:74-87 | pruning and the group step keep every parent link, and the grafted node stays the last child of its parent |
| Grafting.SettledPath | slideshow/tree/Grafting.py:89-97 | pruning and the group step keep the grafted node's path |
| Grafting.PruneKeeping | slideshow/tree/Grafting.py:74-87 | the prune loop from the old parent leaves the links and the node lookup that the walk `Pruned` computes, with every parent link and the grafted node's place as last child kept |
| Grafting.ParentFor | slideshow/tree/Grafting.py:61-62 | `ensure_parent_exists` on the parent name, as `ParentEnsured` states it: the root, unchanged, for an empty or `root` name; a value error, unchanged, for a rejected one; otherwise the prefix chain is built and its last node returned; nodes are only added |
| Grafting.GraftAt | slideshow/tree/Grafting.py:56-97 | re-levelling then grafting, with the new state that `GraftResult` describes; an error from either step leaves the tree untouched; on success the node is the last child of its new parent and carries the root path |
| Grafting.GraftResultFacts | slideshow/tree/Grafting.py:56-97 | a successful graft as `GraftResult` describes it leaves the node found by the root path as the last child of the reported parent, with the root path as its path |
| Grafting.HandleGrafting | slideshow/tree/Grafting.py:29-97 | grafting happens only when a level is in use (both directions); no level or an unknown root path leaves the tree untouched; otherwise the new state is that of `GraftResult`: the node is filed under the tree form of the levelled path, below the node `ensure_parent_exists` gives for its directory, as its last child, with its subtree renamed, the old parent chain pruned and the group settings applied; an error leaves the tree untouched |
| Copying.MapIds | slideshow/tree/Tree.py:344-346 | the copies of a list of nodes, in the same order and with the same length |
| Copying.CopyingStart | slideshow/tree/Tree.py:334-342 | a fresh node carrying the copied attributes is a copy of the node before any child has been copied |
| Copying.CopyingDone | slideshow/tree/Tree.py:344-347 | after the last child, the copy of the node is complete: every node of its subtree has exactly one copy, with the same attributes and the copies of its children in order |
| Copying.CopyInto | slideshow/tree/Tree.py:333-347 | `deep_copy_node` on fresh ids from `lo` upwards: the nodes already there keep their links and attributes, every new id lies in the new range, the copy has no parent, and the subtree is copied node by node |
| Copying.CopyKid | slideshow/tree/Tree.py:344-346 | one loop turn copies the next child and appends its copy, keeping the loop's state and the nodes already there |
| Copying.StepClose | slideshow/tree/Tree.py:345-346 | after the child's copy is appended, the loop state holds for one more child |
| Copying.StepFrame | slideshow/tree/Tree.py:345-346 | copying and appending a child leaves the nodes that were there before the loop as they were |
| Copying.CopiedPreOrder | slideshow/tree/Tree.py:333-347 | the pre-order of a copy is the copy of the source pre-order: the copy keeps both the shape and the child order |
| Copying.CopiedPreOrderFrom | slideshow/tree/Tree.py:344-346 | the copy has as many children as the source node, and the pre-order of its children from the `i`-th on is the copy of the source's |
| Copying.CopyShape | slideshow/tree/Tree.py:349-351 | the new root's pre-order is the copy of the start node's pre-order |
| Copying.RegisterAppend | slideshow/tree/Tree.py:353-357 | filing a list of nodes is filing its first part and then its second |
| Copying.RegisterFinds | slideshow/tree/Tree.py:353-357 | after filing, every filed node's key is found at a filed node with that key; every other key either kept its old entry or names a filed node with that key; unrelated keys are untouched |
| Copying.RegisterInto | slideshow/tree/Tree.py:353-357 | filing nodes of the tree keeps every lookup entry pointing into the tree |
| Copying.UpdateLookups | slideshow/tree/Tree.py:353-357 | both lookups end up as the old ones with every node of the subtree filed in pre-order, by name and by path, a later node winning a shared key |
| Copying.UpdateKid | slideshow/tree/Tree.py:356-357 | one child's turn files that child's whole subtree before the following children |
| Copying.CopyFiles | slideshow/tree/Tree.py:353-358 | every node of the copied subtree can be found in the new tree by its name and by its path, each time at a copy carrying that name or path |
| Copying.FreshTree | slideshow/tree/Tree.py:350 | `Tree(self.defaults, self.filters)` keeps the defaults and filters and starts with just the root filed in both lookups |
| Copying.CopyBeside | slideshow/tree/Tree.py:350-351 | the copy is numbered from id 1, beside the fresh tree's first root, which stays |
| Copying.CopyTree | slideshow/tree/Tree.py:349-351 | the new tree keeps the defaults and filters, its root is the copy of the start node, and the subtree is copied node by node; the lookups are still the fresh ones |
| Copying.FileCopies | slideshow/tree/Tree.py:358 | `update_lookups(new_tree.root)` keeps the tree valid and files every node of the new tree in pre-order |
| Copying.CopyOf | slideshow/tree/Tree.py:349-359 | the whole copy built from the source's defaults, filters, links and attributes |
| Copying.CopySubtreeAsTree | slideshow/tree/Tree.py:323-359 | a fresh valid tree with the same defaults and filters whose root is the copy of the start node, the subtree copied node by node and both lookups filed in pre-order over the fresh ones; the source is only read |
| Merging.KeptImages | enkan/utils/input/TreeMerger.py:132 | the filtered image list is never longer than the original |
| Merging.KeptMembers | enkan/utils/input/TreeMerger.py:132 | an image is kept exactly when it is in the list and does not come from the path (both directions) |
| Merging.KeptAppend | enkan/utils/input/TreeMerger.py:132 | filtering a concatenation is concatenating the filtered parts |
| Merging.KeptAll | enkan/utils/input/TreeMerger.py:132 | a list with no image from the path is kept whole |
| Merging.KeptNone | enkan/utils/input/TreeMerger.py:132 | a list whose images all come from the path is emptied |
| Merging.ReplaceImages | enkan/utils/input/TreeMerger.py:124-137 | only the images change; without incoming images nothing changes; otherwise the incoming images end the new list, and an image is in the new list exactly when it is incoming or a target image not from the incoming path; the flag is set exactly when the node changed |
| Merging.MergeMetadata | enkan/utils/input/TreeMerger.py:139-171 | the incoming user proportion wins when set; weight modifier and percentage flag always come from the incoming node; proportion and mode modifier are filled only when the target has none; nothing else changes; the flag is set exactly when the node changed |
| Merging.MergeNode | enkan/utils/input/TreeMerger.py:78-90 | the target keeps its name, path, group, weight and flat flag, and the flag is set exactly when the node changed |
| Merging.MergeNodeIdempotent | enkan/utils/input/TreeMerger.py:78-90 | merging the same incoming node a second time changes nothing and reports no change, when its images all come from its own path |
| Merging.MergeAppendsImages | enkan/utils/input/TreeMerger.py:131-136 | when no target image comes from the incoming path, the incoming images are appended to all of them |
| Merging.NormPathKeepsDrive | enkan/utils/input/TreeMerger.py:131 | `ntpath.normpath` keeps a drive letter prefix |
| Merging.BareDirName | enkan/utils/input/TreeMerger.py:179 | a file name without separators or drive has an empty directory |
| Merging.NormPathEmpty | enkan/utils/input/TreeMerger.py:179 | `ntpath.normpath("")` is `.` |
| Merging.BareImageNotFrom | enkan/utils/input/TreeMerger.py:174-180 | an image without a directory never comes from a path that normalises to two or more characters |
| Merging.MergeKeepsBareImages | enkan/utils/input/TreeMerger.py:124-137 | bare image names never come from a drive-letter path, so the incoming images are appended to all of them |
| Merging.MergeKeepsBothImages | enkan/utils/input/TreeMerger.py:124-137 | the merge of `C:\foo` with image `b.jpg` into a node holding `a.jpg` gives `a.jpg, b.jpg` |
| Merging.MergeOverwritesUserProportion | enkan/utils/input/TreeMerger.py:149-162 | the later user proportion 75 replaces 25, the existing proportion 25 stays, and the merge reports a change |
| Merging.AddedInfo | enkan/utils/input/TreeMerger.py:95-104 | the added node takes the incoming name, path and images, and has no group, no weight and is not flat |
| Merging.Dfs | enkan/utils/input/TreeMerger.py:69-76 | the traversal order starts with the start node |
| Merging.DfsPerm | enkan/utils/input/TreeMerger.py:69-76 | the traversal visits exactly the nodes of the subtree, each once: it is a permutation of the pre-order |
| Merging.DfsKidsPerm | enkan/utils/input/TreeMerger.py:76 | the subtrees of the first `i` children together with the pre-order from the `i`-th child on make up the pre-order below the node |
| Merging.TraverseParentsFirst | enkan/utils/input/TreeMerger.py:69-76 | every node the traversal yields after the first has its parent yielded before it |
| Merging.DfsParentsEarlier | enkan/utils/input/TreeMerger.py:73-76 | within a child's subtree, every node's parent is the node's parent or comes earlier |
| Merging.DfsKidsParentsEarlier | enkan/utils/input/TreeMerger.py:76 | within the children's subtrees, every node's parent is the node or comes earlier |
| Merging.ParentsEarlierConcat | enkan/utils/input/TreeMerger.py:73-76 | parents-first orders concatenate |
| Merging.ParentsEarlierMono | enkan/utils/input/TreeMerger.py:73-76 | a parents-first order stays one when more nodes count as already seen |
| Merging.PushKids | enkan/utils/input/TreeMerger.py:76 | pushing the children puts their subtrees, last pushed first, before what was pending |
| Merging.Traverse | enkan/utils/input/TreeMerger.py:69-76 | the stack loop yields exactly the order `Dfs` |
| Merging.FindMatching | enkan/utils/input/TreeMerger.py:111-122 | a node is found exactly when the path, as written or normalised, is filed; the path as written wins; the result is a node of the lookup |
| Merging.PlacedTrans | enkan/utils/input/TreeMerger.py:24-27 | keeping every existing node's parent, name and path composes over steps |
| Merging.PlacedFresh | enkan/utils/input/TreeMerger.py:107 | adding one fresh node keeps every existing node in place |
| Merging.UntouchedPlaced | enkan/utils/input/TreeMerger.py:94 | ensuring parents keeps every existing node in place |
| Merging.VisitedGrow | enkan/utils/input/TreeMerger.py:57-66 | once a visited path is known to the base it stays known as the lookup grows |
| Merging.MergeMatched | enkan/utils/input/TreeMerger.py:61-63 | the found node is replaced by its merge with the incoming node, and the step counts as updated exactly when it changed |
| Merging.AddIncoming | enkan/utils/input/TreeMerger.py:92-107 | on success a fresh node holding `AddedInfo` of the incoming node is filed under the incoming name and path, with no children, as the last child of the node filed under `dirname` of the name; existing nodes keep their place; errors are value errors |
| Merging.AddCopy | enkan/utils/input/TreeMerger.py:95-107 | the copy holds `AddedInfo` of the incoming node, is filed under its name and path, has no children and is the last child of the node of `dirname` of the name; existing nodes keep their place |
| Merging.MergeOne | enkan/utils/input/TreeMerger.py:60-66 | a node whose path the base knows is merged into the node found: only that node's attributes change, to `MergeNode`, and the step is an update exactly when `MergeNode` reports a change; an unknown path gets a fresh node as `AddIncoming` states; either way the base then knows the path |
| Merging.MergeVisited | enkan/utils/input/TreeMerger.py:60-66 | the same step as the traversal sees it: a `MergedStep` from the old lookup and attributes to the new ones, so a found node is replaced by its `MergeNode` merge and the step is `Updated` exactly when that merge reports a change, and an unknown path gets a fresh node holding `AddedInfo`; the path is known afterwards, and an error comes only for a path the base did not know |
| Merging.RecordedStep | enkan/utils/input/TreeMerger.py:57-66 | one more visited node keeps the record of outcomes: none exactly for a `root` path, an added node new and distinct from the earlier ones, and no known path added |
| Merging.TallyStep | enkan/utils/input/TreeMerger.py:57-66 | the counts grow by one for an added and for an updated outcome, and the record and the set of added nodes follow |
| Merging.TallyDone | enkan/utils/input/TreeMerger.py:57-67 | at the end the counts are exactly the numbers of added and updated outcomes, together at most the nodes visited, and the added count at most the nodes gained |
| Merging.VisitAt | enkan/utils/input/TreeMerger.py:57-66 | one iteration of the loop on the visiting order: a `VisitStep` from the lookup and attributes before it to those after it (a `root` path skipped with nothing changed; any other node merged, `Updated` exactly when `MergeNode` reports a change, or added as a fresh node); the record and the counts carried one node further |
| Merging.VisitsStep | enkan/utils/input/TreeMerger.py:57-66 | one more visit, from the last snapshot to the next, extends the per-visit record |
| Merging.VisitNext | enkan/utils/input/TreeMerger.py:57-66 | one iteration with its snapshots: the loop's record carries one visit further, with the lookup and attributes after the visit appended |
| Merging.ProgressStart | enkan/utils/input/TreeMerger.py:54-56 | before the loop, nothing visited, one snapshot of the base and both counts 0 |
| Merging.ProgressDone | enkan/utils/input/TreeMerger.py:57-67 | past the last node, the record gives every node placed, every visited path known, the counts those of the outcomes and `Ran` from the first snapshot to the last |
| Merging.VisitCounts | enkan/utils/input/TreeMerger.py:57-67 | over any per-visit record, the added count is the number of visits whose non-root path the base did not know at that visit, and the updated count the number that found a node which `MergeNode` changed |
| Merging.VisitsInOrder | enkan/utils/input/TreeMerger.py:57 | every visited node of the record is a node of the incoming tree |
| Merging.AddedVisits | enkan/utils/input/TreeMerger.py:64-66 | the added outcomes are exactly the visits whose non-root path was unknown at that visit |
| Merging.UpdatedVisits | enkan/utils/input/TreeMerger.py:60-63 | the updated outcomes are exactly the visits whose found node `MergeNode` changed |
| Merging.MergeOrder | enkan/utils/input/TreeMerger.py:57-67 | the loop over the visiting order: `Ran` gives a snapshot of the base's lookup and attributes before and after each visit, from the old ones to the new ones, each visit a `VisitStep` between consecutive snapshots; every visited non-root path is known afterwards; the counts are exactly the added and the updated outcomes; existing nodes keep their place |
| Merging.MergeInto | enkan/utils/input/TreeMerger.py:54-67 | the same in `_traverse` order of the incoming subtree: one `VisitStep` per node between recorded snapshots of the base, every incoming path other than `root` known afterwards, the counts exactly the added and the updated outcomes, and existing nodes keeping parent, name and path |
| Merging.MergeTrees | enkan/utils/input/TreeMerger.py:54-67 | `_merge_trees` for two distinct trees: one `VisitStep` per incoming node in `_traverse` order between snapshots of the base running from its old state to its new one, every non-root incoming path known afterwards, and the counts exactly the added and the updated outcomes |
| Merging.MergeLater | enkan/utils/input/TreeMerger.py:48 | one later source merged into the base: the run is `RunOf` the snapshot of that tree and goes from the base's old lookup and attributes to its new ones, the two counts are the added and the updated outcomes of that run, and the base then knows every key of that tree |
| Merging.KeySeqAt | enkan/utils/input/TreeMerger.py:57 | the keys of a visiting order pair each node's path with its normal form, position by position |
| Merging.KnowsAt | enkan/utils/input/TreeMerger.py:60 | knowing a list of keys is knowing, for each non-root one, its path or its normal form |
| Merging.KnowsRegistered | enkan/utils/input/TreeMerger.py:57-66 | knowing the keys of a tree is `Registered` holding for the path of each of its non-root nodes (both directions) |
| Merging.KnownGrow | enkan/utils/input/TreeMerger.py:45-50 | paths known to the base stay known as its path lookup only gains keys |
| Merging.KnowsUpToStep | enkan/utils/input/TreeMerger.py:45-50 | after one more source, the base knows the keys of that source and of every earlier one |
| Merging.MergeSourceAt | enkan/utils/input/TreeMerger.py:46-50 | one iteration of the loop of `merge`: a source with a tree adds its run to the chain of runs and its counts to the totals; a source without one is skipped, with counts 0 and nothing changed |
| Merging.SourceMerged | enkan/utils/input/TreeMerger.py:46-50 | a merged source extends the loop's record by its run and its counts |
| Merging.SkipSource | enkan/utils/input/TreeMerger.py:46-47 | a source without a tree extends the record by an empty run and leaves the totals |
| Merging.MergeStart | enkan/utils/input/TreeMerger.py:43-45 | the record before the first later tree: idle runs, the base unchanged and both totals 0 |
| Merging.ProgressMerged | enkan/utils/input/TreeMerger.py:45-52 | once past the last source, the record is `Merged` |
| Merging.IdleRuns | enkan/utils/input/TreeMerger.py:46-47 | sources without a tree give empty runs that leave the base and the totals as they are |
| Merging.IdleMerged | enkan/utils/input/TreeMerger.py:43-52 | with no later tree, the untouched base is `Merged` with both counts 0 |
| Merging.RunsSnoc | enkan/utils/input/TreeMerger.py:45-50 | one more run extends the chain, and the totals grow by its counts |
| Merging.ChainedSnoc | enkan/utils/input/TreeMerger.py:45-50 | a run starting where the chain ends extends the chain |
| Merging.StepsSnoc | enkan/utils/input/TreeMerger.py:45-50 | the run of one more source extends the runs of the sources before it |
| Merging.MergedRegistered | enkan/utils/input/TreeMerger.py:32-52 | after `merge`, every non-root path of every later tree is `Registered` in the base |
| Merging.TakeViews | enkan/utils/input/TreeMerger.py:45-47 | a snapshot of each later tree, none for the first source and for one without a tree, with its keys |
| Merging.KnownViews | enkan/utils/input/TreeMerger.py:45-52 | once the keys of every later source are known, every path of every later tree is known |
| Merging.MergeLoop | enkan/utils/input/TreeMerger.py:45-50 | the loop of `merge` from the first later tree on: one run per source, each starting where the one before it ends, the totals the sums of the per-run counts, and every key of every later source known |
| Merging.MergeFrom | enkan/utils/input/TreeMerger.py:45-52 | the loop of `merge` from its first later tree: `Merged`, that is one run per source chained from the old base to the new one, existing nodes in place, every non-root path of every later tree known, and the two counts the totals of the runs |
| Merging.MergeRest | enkan/utils/input/TreeMerger.py:43-52 | the loop of `merge` over sources 1 onward: the snapshot of each later tree is taken before the merge and `Merged` holds over them; sources without a tree are skipped, and with none left the base is untouched and both counts are 0 |
| Merging.Merge | enkan/utils/input/TreeMerger.py:32-52 | no sources or a first source without a tree is a value error; otherwise the first tree is returned with no warnings, and `Merged` ties it to snapshots of the later trees taken before the call: one run per source in order, each visit a `VisitStep`, every existing node in place, every non-root path of every later tree known, and `added_nodes` and `updated_nodes` the sums of the per-tree counts; with no later tree it is untouched and both counts are 0 |
| MultiSource.ExtractTreeMode | enkan/utils/input/MultiSourceBuilder.py:247-255 | a tree reports its built mode exactly when that table is non-empty, and nothing otherwise |
| MultiSource.EntryTree | enkan/utils/input/MultiSourceBuilder.py:51-82 | a folder input keeps no tree, since the kind match has no case for it; a tree, list or text input keeps the tree its builder gave |
| MultiSource.LoadedTrees | enkan/utils/input/MultiSourceBuilder.py:48-108 | at most one kept tree per input |
| MultiSource.LoadedAreEntries | enkan/utils/input/MultiSourceBuilder.py:83-108 | every kept tree is the tree of one of the inputs |
| MultiSource.SourcesHoldTrees | enkan/utils/input/MultiSourceBuilder.py:100-108 | one source per kept tree, in input order, each carrying that tree and no warnings |
| MultiSource.HoldsAppend | enkan/utils/input/MultiSourceBuilder.py:100-108 | pairing sources with trees survives concatenation |
| MultiSource.SourcesStep | enkan/utils/input/MultiSourceBuilder.py:48-108 | the sources gathered grow by the source of each input in turn |
| MultiSource.FirstMode | enkan/utils/input/MultiSourceBuilder.py:241-245 | the first reported mode is a non-empty table |
| MultiSource.FirstModeSpec | enkan/utils/input/MultiSourceBuilder.py:241-245 | there is a first mode exactly when some source with a tree reports a mode, and it is the mode of the earliest such source (both directions) |
| MultiSource.FirstModeAppend | enkan/utils/input/MultiSourceBuilder.py:83-95 | a source after the first reporting one never changes the first mode; otherwise its own mode becomes the first |
| MultiSource.FirstModeConcat | enkan/utils/input/MultiSourceBuilder.py:83-95 | the same for appending at most one source |
| MultiSource.FirstModeUnique | enkan/utils/input/MultiSourceBuilder.py:241-245 | the earliest reporting source decides, whatever follows it |
| MultiSource.ApplyModePrecedence | enkan/utils/input/MultiSourceBuilder.py:231-245 | a command-line mode leaves the global mode alone; otherwise the first source with a tree and a mode sets it; no other default changes |
| MultiSource.AdoptMode | enkan/utils/input/MultiSourceBuilder.py:84-88 | a tree's mode replaces an empty target mode and becomes the global mode; a set target stays and nothing is written |
| MultiSource.CollectEntry | enkan/utils/input/MultiSourceBuilder.py:49-108 | one input contributes the source `SourceFor` names; the target adopts the tree's mode when it was empty, and the global mode takes that mode, or the target when a non-`.txt` tree reports another mode than a set target |
| MultiSource.Harmonise | enkan/utils/input/MultiSourceBuilder.py:257-263 | a tree reporting another mode than a set target has the target written to the global mode; otherwise nothing changes |
| MultiSource.AnyClash | enkan/utils/input/MultiSourceBuilder.py:96-99 | some source clashes with the target exactly when one of them is not `.txt` and reports another mode |
| MultiSource.ClashConcat | enkan/utils/input/MultiSourceBuilder.py:96-99 | a clash in a concatenation is a clash in one of its parts |
| MultiSource.CollectSources | enkan/utils/input/MultiSourceBuilder.py:34-108 | the loop collects exactly `SourcesOf` the inputs; the global mode ends as `CollectedMode`: with a command-line mode, that mode once some non-`.txt` source reports another; without one, the mode of the first reporting tree |
| MultiSource.TreesOf | enkan/utils/input/MultiSourceBuilder.py:119 | the merger receives the trees of the sources, in order |
| MultiSource.MergeTrees | enkan/utils/input/MultiSourceBuilder.py:118-135 | the later trees are merged into the first, and `MergedAll` ties the attributes the merge leaves to one run per later tree over its snapshot taken before the call; the weights are then those of one calculation on that merged tree under the first tree's own defaults; a weight error is a value error that propagates; on success the first tree is returned with no warnings |
| MultiSource.MergeSources | enkan/utils/input/MultiSourceBuilder.py:118-121 | the merger returns the first tree, still valid, with no warnings, and `Merged` over the snapshots of the later trees taken before the call: one run per tree with a `VisitStep` per node, every node in place, every later path known, and the counts the sums of the per-tree counts; errors are value errors |
| MultiSource.MergeAndWeigh | enkan/utils/input/MultiSourceBuilder.py:116-135 | mode precedence on the global defaults, then the merge, recorded by `MergedAll` over snapshots of the later trees, and one weight calculation on its result under the first tree's own defaults |
| MultiSource.Finish | enkan/utils/input/MultiSourceBuilder.py:110-135 | no source gives `(None, [])`; one source gives its tree and no warnings and leaves it untouched; several sources give the first tree, merged as `MergedAll` records over snapshots of the other trees and then weighed once under its own defaults |
| MultiSource.Build | enkan/utils/input/MultiSourceBuilder.py:31-135 | the whole `build`: the global mode ends as `CollectedMode`; zero, one and several kept trees give the three result shapes; with several, the first tree's weights are those of one calculation on the merged tree under that tree's own defaults, and an error from it is a value error |
| MultiSource.CliModeWins | enkan/utils/input/MultiSourceBuilder.py:34-36 | an example of the command-line precedence: with `b2` on the command line the effective mode is that table, balanced at level 2, whatever the sources report |
| InputModels.ClassifyInputPath | enkan/utils/input/input_models.py:41-55 | the lower-cased path is a text, list or tree input exactly when it ends in `.txt`, `.lst` or `.tree`, a folder exactly when it ends in none of them, and never `OTHER` |
| InputModels.NestedIffInputKind | enkan/utils/input/input_models.py:58-65 | a line is a nested reference exactly when the path it names, once modifiers, blanks and quotes are stripped, classifies as a text, list or tree input (both directions) |
| InputModels.NestedIgnoresModifiers | enkan/utils/input/input_models.py:63 | stripping the modifiers first does not change whether a line is a nested reference |
| InputModels.TxtContainsNestedInputs | enkan/utils/input/input_models.py:68-80 | an unreadable file counts as nested; otherwise the answer is true exactly when some line, stripped, is not blank, not a comment and a nested reference |
| InputModels.AnyOfStep | enkan/utils/input/input_models.py:71-76 | the scan over one more line finds a match exactly when the earlier lines or that line do |
| InputModels.AnyOfPrefix | enkan/utils/input/input_models.py:75-76 | a match among the first lines is a match in the file, so returning early is right |
| InputModels.CommentNotNested | enkan/utils/input/input_models.py:73-74 | a comment line never makes a file nested, whatever it ends with |
| InputModels.ShouldBypassMerge | enkan/utils/input/input_models.py:83-98 | the method answers exactly `Bypasses`: one input only; a text input without nested inputs; never a list; always a tree or a folder |
| InputModels.BypassCases | enkan/utils/input/input_models.py:88-98 | several inputs or a lone list never bypass; a lone tree or folder always does; a lone text input does exactly when it is readable and has no nested reference |
| InputProcessing.WordShape | enkan/constants.py:27-31 | a text matching one of the case-insensitive word patterns (`f`, `v`, `nv`, `m`, `nm`) has that word's length, and its characters lower-case to the word's |
| InputProcessing.FirstCharacters | enkan/constants.py:19-31 | each modifier pattern fixes the first character of what it matches: a digit for a weight, `%` for a proportion, `b`/`w` for a mode, the letter (either case) and the length for each word |
| InputProcessing.PatternsDisjoint | enkan/utils/input/InputProcessor.py:263-284 | no modifier text matches two of the eleven patterns, a text is unknown exactly when none matches, and trying the handlers in reverse order gives the same result, so the `HANDLERS` order never decides anything |
| InputProcessing.StripLeftOne | enkan/utils/input/InputProcessor.py:278 | stripping a text that begins with a dropped character is stripping the rest |
| InputProcessing.StripRightOne | enkan/utils/input/InputProcessor.py:278 | stripping a text that ends with a dropped character is stripping the rest |
| InputProcessing.ContentOfToken | enkan/utils/input/InputProcessor.py:278 | the text of a token `[x]` whose `x` neither starts nor ends with a bracket or a blank is `x` |
| InputProcessing.WeightRoundTrip | enkan/utils/input/InputProcessor.py:220-226 | the text `N` is a weight of N that is not a percentage, and `N%` a weight of N that is a percentage |
| InputProcessing.ProportionRoundTrip | enkan/utils/input/InputProcessor.py:228-232 | the texts `%N` and `%N%` are both the proportion N |
| InputProcessing.GraftAndGroupRoundTrip | enkan/utils/input/InputProcessor.py:234-238 | `gN` and `GN` graft at level N, and `>name` joins the group `name` |
| InputProcessing.NumberTokenContent | enkan/utils/input/InputProcessor.py:278 | the text of the token `[N%]` is `N%` and that of `[N]` is `N` |
| InputProcessing.NumberUnpadded | enkan/utils/input/InputProcessor.py:278 | a decimal numeral, with or without a trailing `%`, has no bracket or blank at either end |
| InputProcessing.WeightTokenRoundTrip | enkan/utils/input/InputProcessor.py:220-282 | a whole token `[N%]` is a percentage weight of N, and `[N]` a plain weight of N |
| InputProcessing.ClassifyAll | enkan/utils/input/InputProcessor.py:277-282 | one modifier per token |
| InputProcessing.FoldAppend | enkan/utils/input/InputProcessor.py:277-282 | running the handlers of two runs of modifiers one after the other is running them of the concatenation |
| InputProcessing.Known | enkan/utils/input/InputProcessor.py:279-284 | the modifiers it keeps are all recognised ones (the reference that `UnknownIgnored` compares against) |
| InputProcessing.UnknownIgnored | enkan/utils/input/InputProcessor.py:283-284 | the state after all the modifiers equals the state after only the recognised ones: unknown modifiers change nothing |
| InputProcessing.LastWeightWins | enkan/utils/input/InputProcessor.py:220-282 | after any run of modifiers ending in a weight, the weight and its percentage flag are that last one's, whatever came before |
| InputProcessing.WeightUntouched | enkan/utils/input/InputProcessor.py:228-260 | modifiers that are not weights leave the weight and the percentage flag as they were |
| InputProcessing.ProportionMirrored | enkan/utils/input/InputProcessor.py:228-232 | when proportion and user proportion start equal, they are still equal after any run of modifiers |
| InputProcessing.FlagsFromTokens | enkan/utils/input/InputProcessor.py:207-260 | from the initial state, a line is flat exactly when a `[f]` occurs among its modifiers, and dont-recurse is set exactly when a `[/]` does |
| InputProcessing.Bundle | enkan/utils/input/InputProcessor.py:289-295 | a group bundle has a proportion, user proportion or graft level exactly when the line set one that is not zero (and then the same one), and a mode only when the line set a non-empty one |
| InputProcessing.EffectiveGraftLevel | enkan/utils/input/InputProcessor.py:304-309 | the explicit graft level, else the number of non-empty parts of the normalised path, plus the graft offset (the `if graft_offset` test never changes the value); without an explicit level it is at least the offset |
| InputProcessing.EntryResult | enkan/utils/input/InputProcessor.py:311-336 | a directory result exactly when `isdir` holds, a file result exactly when `isfile` holds and `isdir` does not, nothing otherwise; a result carries the path and the line's settings, a directory's also `flat` and `video` |
| InputProcessing.ClassifyAllStep | enkan/utils/input/InputProcessor.py:277-282 | classifying one more token appends its modifier |
| InputProcessing.RecurseStopsStep | enkan/utils/input/InputProcessor.py:258-260 | the folders stopped by one more modifier are those stopped before plus the path exactly when it is `[/]` |
| InputProcessing.ClassifyTokens | enkan/utils/input/InputProcessor.py:277-282 | the loop over the tokens yields the modifier of each token, in order |
| InputProcessing.ControlLinesOnlyConfigure | enkan/utils/input/InputProcessor.py:175-193 | `[r]`, `[+]` and `[-]` lines return nothing and touch no group, no video, mute or mode global and no dont-recurse folder; random mode is set exactly by `[r]` |
| InputProcessing.ExclusionKinds | enkan/utils/input/InputProcessor.py:184-193 | `[-]x` adds nothing to the keywords required, and exactly one of: an ignored file when x is absolute and a file, an ignored directory when x is absolute and not a file, a forbidden keyword when x is not absolute |
| InputProcessing.GlobalsOnlyFromTopStarLine | enkan/utils/input/InputProcessor.py:288-301 | a line writes the global mode and dont-recurse exactly when it is a `*` line without a group at recursion depth 1 with global mode allowed |
| InputProcessing.StarLineKeepsMode | enkan/utils/input/InputProcessor.py:299-300 | a top-level `*` line with no mode of its own writes the current effective mode back as the global one, with the line's dont-recurse |
| InputProcessing.GroupLineStopsEarly | enkan/utils/input/InputProcessor.py:288-296 | a `*` line naming a group stores that group's bundle, sets no video, mode or random global and returns nothing |
| InputProcessing.EntryLinesChangeNoDefaults | enkan/utils/input/InputProcessor.py:199-336 | a line naming a path changes no default and no filter except adding that path to the dont-recurse folders, and returns that path exactly when it is a directory or a file |
| InputProcessing.EntrySettings | enkan/utils/input/InputProcessor.py:304-332 | the settings returned for a path carry the line's weight and percentage flag, equal proportion and user proportion, and the effective graft level |
| InputProcessing.LoadTreeIfCurrent | enkan/utils/input/InputProcessor.py:36-59 | the loaded tree is used exactly when loading succeeded and its pickle version is present and current |
| InputProcessing.Alternate | enkan/utils/input/InputProcessor.py:82-89 | the fallback is the stem's `.lst` when that file exists, else its `.txt`; it is always an existing one of the two, and there is none exactly when neither exists |
| InputProcessing.FallbackOrder | enkan/utils/input/InputProcessor.py:76-91 | the corrected `.tree` case: a current tree is used as loaded; otherwise the alternate list is processed at the same depth, graft offset and global-mode flag; nothing happens exactly when there is no current tree and no alternate |
| InputProcessing.FallbackDropsContext | enkan/utils/input/InputProcessor.py:87-89 | as written, a stale tree reached with a graft offset or with global mode off is reprocessed with graft offset 0 and global mode on, unlike the corrected fallback |
| InputProcessing.InputProcessor.constructor | enkan/utils/input/InputProcessor.py:14-17 | the processor keeps the defaults and filters it is given |
| InputProcessing.InputProcessor.ParseInputLine | enkan/utils/input/InputProcessor.py:172-336 | `parse_input_line`: the defaults and the filters change exactly as `Interpret` describes for the line, and nothing else does; the result is `Interpret`'s |
| InputProcessing.InputProcessor.ParseEntry | enkan/utils/input/InputProcessor.py:196-336 | a line that is not a control line, once split into tokens and path, changes the state and returns as `EntryEffect` describes |
| InputProcessing.InputProcessor.Configure | enkan/utils/input/InputProcessor.py:175-193 | the `[r]`, `[+]` and `[-]` branches perform exactly the control line's effect |
| InputProcessing.InputProcessor.Exclude | enkan/utils/input/InputProcessor.py:184-192 | `[-]x` adds x to the ignored files, the ignored directories or the forbidden keywords, as `Exclusion` chooses, and changes nothing else |
| InputProcessing.InputProcessor.SetRandom | enkan/utils/input/InputProcessor.py:175-177 | `[r]` sets global random mode and nothing else |
| InputProcessing.InputProcessor.ApplyModifiers | enkan/utils/input/InputProcessor.py:277-284 | the handler loop leaves the state of the line's classified modifiers, and adds the path to the dont-recurse folders exactly when a `[/]` occurs |
| InputProcessing.InputProcessor.RunHandlers | enkan/utils/input/InputProcessor.py:220-284 | the handlers run left to right from the initial state leave the fold of the modifiers, and `[/]` adds the path to the dont-recurse folders |
| InputProcessing.InputProcessor.StarLine | enkan/utils/input/InputProcessor.py:288-301 | a `*` line stores a group bundle, or sets the video and mute globals and, at the top level with global mode allowed, the mode and dont-recurse, as `StarEffect` says |
| InputProcessing.InputProcessor.SetVideo | enkan/utils/input/InputProcessor.py:297-298 | the global video and mute become the given ones that are set; the others are kept |
| InputProcessing.InputProcessor.SetModeAndRecursion | enkan/utils/input/InputProcessor.py:299-300 | the global mode becomes the given one, dont-recurse the given one when set, and random mode is kept |
| ListBuilders.ParseWeighted | enkan/tree/TreeBuilderLST.py:28-40 | a line that is not skipped always yields a positive weight |
| ListBuilders.SplitWeight | enkan/tree/TreeBuilderLST.py:29-40 | the weight after the last comma, when it parses, counts only if positive (else 1.0); a line with no comma or no number after it is its own path with weight 1.0; the weight is always positive |
| ListBuilders.ParsersAgree | enkan/utils/input/list_tree_builder.py:13-33 | the `.lst` builder's parser yields an entry exactly when the line is neither blank nor a comment, and on those lines the list builder's parser yields the same entry; on the others it yields the empty path with weight 0.0 |
| ListBuilders.PlainLine | enkan/tree/TreeBuilderLST.py:28-30 | a line without a comma, once blanks and quotes are stripped, is its own path with weight 1.0 |
| ListBuilders.WeightedLine | enkan/tree/TreeBuilderLST.py:32-40 | round trip: writing a path and a decimal weight as `path,N` and parsing gives back that path and N, or 1.0 when N is 0 |
| ListBuilders.SplitAtLastComma | enkan/tree/TreeBuilderLST.py:32-40 | `path,N` splits at the comma before the digits, giving the stripped path and N (1.0 for 0) |
| ListBuilders.SplitWeightAt | enkan/tree/TreeBuilderLST.py:32-40 | when the last comma is at `c` and what follows parses as `w`, the entry is the stripped text before `c` with `w`, or 1.0 when `w` is not positive |
| ListBuilders.LastCommaAt | enkan/tree/TreeBuilderLST.py:32 | in `path,digits` the last comma is the one after `path` |
| ListBuilders.NoBlanks | enkan/tree/TreeBuilderLST.py:34 | stripping a run of digits changes nothing |
| ListBuilders.NoBlanksAtEnds | enkan/tree/TreeBuilderLST.py:28-33 | a text that neither begins nor ends with a blank or a quote survives both strips unchanged |
| ListBuilders.CleanLine | enkan/tree/TreeBuilderLST.py:25-28 | `path,digits` with a clean path survives the strips, and is skipped exactly when the path starts with `#` |
| ListBuilders.ReadersPositive | enkan/tree/TreeBuilderLST.py:60-63 | both readers yield positive weights only, and the list builder's reader never yields an empty path |
| ListBuilders.PositiveAppend | enkan/tree/TreeBuilderLST.py:65 | joining two runs of positive entries gives positive entries |
| ListBuilders.EntriesPositive | enkan/tree/TreeBuilderLST.py:53-65 | a reader of positive weights reads any file into positive weights |
| ListBuilders.EntriesCount | enkan/utils/input/list_tree_builder.py:56-61 | a file yields exactly one entry per line the reader accepts |
| ListBuilders.KeyIndex | enkan/tree/TreeBuilderLST.py:65 | the lookup of `grouped[key]`: a valid index whose group has the key, or -1 exactly when no group has it |
| ListBuilders.GroupByPartitions | enkan/tree/TreeBuilderLST.py:47-65 | grouping into a `defaultdict(list)` partitions the entries: distinct keys, each group exactly the entries with its key in file order and never empty, and a group for every key that has entries |
| ListBuilders.InGroupSnoc | enkan/tree/TreeBuilderLST.py:65 | the entries of a key after one more entry are those before, plus that entry when it has the key |
| ListBuilders.AppendPartitions | enkan/tree/TreeBuilderLST.py:65 | one `grouped[key].append(e)` turns a partition of the entries into a partition of the entries with `e` |
| ListBuilders.AppendNew | enkan/tree/TreeBuilderLST.py:65 | appending under a new key adds its group last, keeping a partition |
| ListBuilders.AppendOld | enkan/tree/TreeBuilderLST.py:65 | appending under an existing key extends that group in place, keeping a partition |
| ListBuilders.AppendOldGroups | enkan/tree/TreeBuilderLST.py:65 | extending an existing group keeps the keys distinct and every group the entries of its key |
| ListBuilders.AppendOldIndex | enkan/tree/TreeBuilderLST.py:65 | extending an existing group leaves the set of grouped keys unchanged |
| ListBuilders.GroupLines | enkan/tree/TreeBuilderLST.py:49-65 | the read loop yields the grouping of the entries read from the lines |
| ListBuilders.GroupBySnoc | enkan/tree/TreeBuilderLST.py:65 | grouping one more entry is one append on the grouping before |
| ListBuilders.GroupWeight | enkan/tree/TreeBuilderLST.py:73 | the summed weight of a non-empty group of positive entries is positive |
| ListBuilders.DirWeights | enkan/tree/TreeBuilderLST.py:72-75 | one summed weight per folder group |
| ListBuilders.TotalWeight | enkan/tree/TreeBuilderLST.py:76 | `sum or len or 1.0` is never zero, so every division by it is defined |
| ListBuilders.PercentAdd | enkan/tree/TreeBuilderLST.py:86 | percentages of the same total add |
| ListBuilders.PercentOfWhole | enkan/tree/TreeBuilderLST.py:86 | the total is 100 percent of itself |
| ListBuilders.Shares | enkan/tree/TreeBuilderLST.py:86 | one percentage per weight |
| ListBuilders.SharesSum | enkan/tree/TreeBuilderLST.py:86 | the percentages add up to the percentage of the summed weights |
| ListBuilders.SharesAt | enkan/tree/TreeBuilderLST.py:86 | the share at `i` is the percentage of the weight at `i` |
| ListBuilders.SumPositive | enkan/tree/TreeBuilderLST.py:76 | a non-empty sum of positive weights is positive |
| ListBuilders.DirWeightsPositive | enkan/tree/TreeBuilderLST.py:72-75 | non-empty groups of positive entries have positive summed weights |
| ListBuilders.GroupsPositive | enkan/tree/TreeBuilderLST.py:64-65 | every group of positive entries is non-empty and positive |
| ListBuilders.InGroupPositive | enkan/tree/TreeBuilderLST.py:65 | the entries of one key among positive entries are positive |
| ListBuilders.FolderSharesSumTo100 | enkan/tree/TreeBuilderLST.py:72-86 | the folder proportions of a `.lst` file with at least one entry add up to 100 |
| ListBuilders.Normalise | enkan/utils/input/list_tree_builder.py:36-38 | one result per entry |
| ListBuilders.Scaled | enkan/utils/input/list_tree_builder.py:38 | one result per entry |
| ListBuilders.ScaledSum | enkan/utils/input/list_tree_builder.py:38 | the scaled weights add up to the percentage of the summed weights |
| ListBuilders.ScaledAt | enkan/utils/input/list_tree_builder.py:38 | the scaled entry at `k` keeps its path and has the percentage of its weight |
| ListBuilders.NormaliseSumsTo100 | enkan/utils/input/list_tree_builder.py:36-38 | normalising a non-empty positive group gives proportions that add up to 100 |
| ListBuilders.NormaliseAt | enkan/utils/input/list_tree_builder.py:36-38 | each entry keeps its path and place, its proportion being its weight as a percentage of the group's total |
| ListBuilders.NormalisePositive | enkan/utils/input/list_tree_builder.py:36-38 | normalising keeps weights positive |
| ListBuilders.PositiveShare | enkan/utils/input/list_tree_builder.py:38 | a positive weight of a positive total is a positive percentage |
| ListBuilders.NormaliseIdempotent | enkan/utils/input/list_tree_builder.py:36-38 | normalising a normalised group changes nothing |
| ListBuilders.PathsOf | enkan/tree/TreeBuilderLST.py:85 | one image path per entry |
| ListBuilders.FolderPlan | enkan/tree/TreeBuilderLST.py:84-96 | one folder node per group |
| ListBuilders.FolderPlanWith | enkan/tree/TreeBuilderLST.py:84-96 | the node at `i` is the group's key with weight modifier 100 as a percentage, the given share as proportion, no mode and the group's images |
| ListBuilders.FolderPlanAt | enkan/tree/TreeBuilderLST.py:84-96 | the folder node planned for group `i` has its key, its images and its summed weight as a percentage of the total |
| ListBuilders.Leaves | enkan/utils/input/list_tree_builder.py:67-81 | one image node per weighted entry |
| ListBuilders.LeavesAt | enkan/utils/input/list_tree_builder.py:67-81 | the node at `k` is named by that entry's path without its extension and holds that one image with the entry's proportion |
| ListBuilders.ListLeafCount | enkan/utils/input/list_tree_builder.py:56-81 | the list builder plans exactly one image node per entry of the file: none lost, none added |
| ListBuilders.LeafPlanSize | enkan/utils/input/list_tree_builder.py:65-67 | the leaf plan has as many nodes as the groups have entries |
| ListBuilders.GroupSizes | enkan/utils/input/list_tree_builder.py:61 | grouping keeps the number of entries |
| ListBuilders.AppendSize | enkan/utils/input/list_tree_builder.py:61 | one append adds one entry to the groups |
| ListBuilders.SizesUpdate | enkan/utils/input/list_tree_builder.py:61 | replacing a group changes the entry count by the difference in size |
| ListBuilders.Expected | enkan/tree/TreeBuilderLST.py:87-96 | one expected node per planned one |
| ListBuilders.ExpectedAt | enkan/tree/TreeBuilderLST.py:87-96 | the expected node at `k` is what `create_node` makes of the planned node at `k` |
| ListBuilders.CreateNodes | enkan/tree/TreeBuilderLST.py:84-97 | the creation loop keeps the tree valid and, without an error, has created every planned node, in order, each new to the tree with the expected attributes |
| ListBuilders.CreatePlanned | enkan/tree/TreeBuilderLST.py:87-96 | one `create_node` call keeps the tree valid, leaves the old nodes as they were, and on success adds a new node with the planned attributes |
| ListBuilders.CreatedStep | enkan/tree/TreeBuilderLST.py:84-97 | one more successful creation extends the record of created nodes by one |
| ListBuilders.LstBuilder.constructor | enkan/tree/TreeBuilderLST.py:17-18 | the builder keeps the tree it is given |
| ListBuilders.LstBuilder.Build | enkan/tree/TreeBuilderLST.py:42-97 | an unreadable file or one with no entry is a `ValueError` that leaves the tree unchanged; otherwise one node per folder, in the order folders first appear, with the folder's images and its share of the total weight |
| ListBuilders.BuildTreeFromList | enkan/utils/input/list_tree_builder.py:41-84 | an unreadable file is a `ValueError`; a result is a fresh valid tree whose nodes are one per entry with its normalised proportion, and whose attributes are those nodes weighed by `calculate_weights` |
| TxtBuilder.DecisionMeaning | enkan/tree/TreeBuilderTXT.py:127-131 | a directory is processed exactly when it is not ignored, not rejected by a keyword and not below the lowest rung; it is descended into exactly when recursion is on, it is not ignored, and it is not a "do not recurse" directory that is itself processed (a keyword-rejected or below-rung one is still searched below) |
| TxtBuilder.ProcessedAt | enkan/tree/TreeBuilderTXT.py:130-162 | every visit in a run of processed visits is rated 0 or 3 |
| TxtBuilder.ProcessedAppend | enkan/tree/TreeBuilderTXT.py:162-167 | joining two runs of processed visits gives a run of processed visits |
| TxtBuilder.WalkOnlyProcessed | enkan/tree/TreeBuilderTXT.py:126-169 | `process_path` is only ever called on a directory whose rating is 0 or 3, however deep |
| TxtBuilder.WalkKidsOnlyProcessed | enkan/tree/TreeBuilderTXT.py:164-167 | the walks below the subdirectories only visit processed directories |
| TxtBuilder.WalkKidsEmpty | enkan/tree/TreeBuilderTXT.py:164-167 | when nothing is visited below the first `n` subdirectories, nothing is visited below any one of them |
| TxtBuilder.WalkBounded | enkan/tree/TreeBuilderTXT.py:126-169 | the walk calls `process_path` at most once per directory of the listing |
| TxtBuilder.WalkKidsBounded | enkan/tree/TreeBuilderTXT.py:164-167 | the walks below the first `n` subdirectories make at most as many visits as those subdirectories hold directories |
| TxtBuilder.WalkStartsAtRoot | enkan/tree/TreeBuilderTXT.py:133-167 | a readable processed directory is visited first, with its file and subdirectory names; with recursion off globally, it is the only visit (and there is none when it is not processed or unreadable) |
| TxtBuilder.KeptPathsCount | enkan/tree/TreeBuilderTXT.py:226-232 | one kept path per kept file name |
| TxtBuilder.FlatImagesCount | enkan/tree/TreeBuilderTXT.py:215-254 | the flattened node collects exactly as many paths as the whole directory tree has kept files: none lost, none twice |
| TxtBuilder.FlatKidsImagesCount | enkan/tree/TreeBuilderTXT.py:246-247 | the subdirectories contribute exactly their kept files |
| TxtBuilder.FlatDirsFewer | enkan/tree/TreeBuilderTXT.py:238-239 | there are never more traversed directories than collected images: each contributed at least one |
| TxtBuilder.FlatKidsDirsFewer | enkan/tree/TreeBuilderTXT.py:238-247 | the same bound below the subdirectories |
| TxtBuilder.KeepFiles | enkan/tree/TreeBuilderTXT.py:222-232 | the loop keeps, in listing order, the paths of the images and, when allowed, the videos |
| TxtBuilder.CollectFlat | enkan/tree/TreeBuilderTXT.py:215-249 | `recurse` returns every kept file below the path (its own, then each subdirectory's) and records, in pre-order, the directories holding one; an unreadable directory contributes nothing |
| TxtBuilder.CollectKids | enkan/tree/TreeBuilderTXT.py:246-247 | the loop over the subdirectories collects each one's files and directories in turn |
| TxtBuilder.NumAvgImages | enkan/tree/TreeBuilderTXT.py:346-351 | the floor average of images per branch, at least 1, and 100 for a tree without branches |
| TxtBuilder.SpecificImagesRepeat | enkan/tree/TreeBuilderTXT.py:364-372 | the node of a specific image holds only that image: the average number of copies for a percentage node, else its weight modifier (none when negative) |
| TxtBuilder.SpecificGraftLevel | enkan/tree/TreeBuilderTXT.py:365-390 | a graft level that is absent or 0 falls back to the image's level (its configured one, else the level of its node name); any other is used as given |
| TxtBuilder.AcceptedMeans | enkan/tree/TreeBuilderTXT.py:356-358 | an image is accepted exactly when it is one of the specific images and the filters rate it 0 |
| TxtBuilder.NamedSnoc | enkan/tree/TreeBuilderTXT.py:356 | a name is among the items exactly when it is among those before the last, or is the last |
| TxtBuilder.AcceptedStep | enkan/tree/TreeBuilderTXT.py:356-358 | the accepted images of one more item are those before, plus that item when it is rated 0 |
| TxtBuilder.TxtBuilder.constructor | enkan/tree/TreeBuilderTXT.py:23-29 | the builder keeps the tree it is given |
| TxtBuilder.TxtBuilder.EnsureStructuralRootNode | enkan/tree/TreeBuilderTXT.py:31-50 | a root that already has a node leaves the tree unchanged; otherwise a new node is created for it carrying the root's configuration with the source's defaults and no images |
| TxtBuilder.TxtBuilder.AddRegularBranch | enkan/tree/TreeBuilderTXT.py:303-336 | an existing node is updated with the directory's keys and images and nothing else changes; otherwise a new node with no proportion, the user proportion and the images is created; either way the path's node holds the images |
| TxtBuilder.TxtBuilder.AddImagesBranch | enkan/tree/TreeBuilderTXT.py:281-301 | a new `images` child of the path is created with weight 100 as a percentage, the directory's proportions and mode, and the images |
| TxtBuilder.TxtBuilder.ProcessPath | enkan/tree/TreeBuilderTXT.py:171-199 | a directory with no valid file leaves the tree unchanged; otherwise its valid files end up in the node of its `images` child when it has subdirectories, else in its own node |
| TxtBuilder.TxtBuilder.ProcessDirectory | enkan/tree/TreeBuilderTXT.py:114-169 | when the walk below the root visits nothing, the tree is unchanged |
| TxtBuilder.TxtBuilder.Recurse | enkan/tree/TreeBuilderTXT.py:126-167 | a directory that is neither processed nor descended, or unreadable, or below which nothing is visited, changes nothing |
| TxtBuilder.TxtBuilder.RecurseKids | enkan/tree/TreeBuilderTXT.py:164-167 | the loop over subdirectories changes nothing when no subdirectory walk visits anything |
| TxtBuilder.TxtBuilder.PlaceFlat | enkan/tree/TreeBuilderTXT.py:256-275 | an existing node takes the collected images and nothing else changes; otherwise a new node with the directory's configuration and the images is created |
| TxtBuilder.TxtBuilder.AddFlatBranch | enkan/tree/TreeBuilderTXT.py:201-279 | the path's node holds every kept file below the path, in collection order, and every traversed directory is looked up to that same node |
| TxtBuilder.TxtBuilder.AliasPaths | enkan/tree/TreeBuilderTXT.py:277-279 | afterwards every listed path is looked up to the node, and every other path keeps its entry |
| TxtBuilder.TxtBuilder.CreateVirtualNode | enkan/tree/TreeBuilderTXT.py:374-387 | on success a new node is registered under its name and as the virtual node of the image; on failure the virtual images are unchanged |
| TxtBuilder.TxtBuilder.AcceptSpecificImage | enkan/tree/TreeBuilderTXT.py:360-392 | without an error the image is mapped to a new node; when creating the node fails, the virtual images are unchanged; once it is created, filed under the image's stem name and mapped, the error is exactly that of a `Failed` graft, and with a graft level the new state is the `GraftResult` of grafting that node from the state after creation |
| TxtBuilder.TxtBuilder.ProcessSpecificImage | enkan/tree/TreeBuilderTXT.py:357-392 | an image the filters do not rate 0 changes nothing; an accepted one is, without an error, mapped to a new node |
| TxtBuilder.TxtBuilder.ProcessSpecificImages | enkan/tree/TreeBuilderTXT.py:338-392 | without an error, exactly the accepted images are added to the virtual images |
| TxtBuilder.TxtBuilder.AddSpecificImages | enkan/tree/TreeBuilderTXT.py:356-392 | the loop, when it ends without an error, has added exactly the accepted images to the virtual images |
| TxtBuilder.TxtBuilder.AddRoot | enkan/tree/TreeBuilderTXT.py:93-106 | one root's structural node and branch lead to a state `pre` (none when they raised, with an error); from it, no graft level or an unknown root gives no error and no further change, otherwise the new state is the `GraftResult` of grafting the root's node; the error is exactly that of a `Failed` graft; the tree stays valid |
| TxtBuilder.TxtBuilder.GraftNode | enkan/tree/TreeBuilderTXT.py:102-106 | `handle_grafting` with nothing to catch its error: the error is exactly that of a `Failed` outcome and then the tree is untouched; no graft level or an unknown path gives no error and no change; otherwise the new state is the `GraftResult` of grafting the path's node at the level |
| TxtBuilder.TxtBuilder.BuildTree | enkan/tree/TreeBuilderTXT.py:52-111 | no input changes nothing; otherwise the built mode is the given mode, else the defaults' mode; every accepted specific image gets a virtual node; roots that are not directories are skipped, so with none and no specific image the tree is unchanged |
| Utils.FirstAtLeast | enkan/utils/utils.py:34 | the first index whose value is at least `x` (every earlier value is smaller), or the length when there is none |
| Utils.BisectLeft | enkan/utils/utils.py:34 | the binary search stays within the list and, on a sorted list, finds the first index whose cumulative weight is at least `x` |
| Utils.FirstAtLeastUnique | enkan/utils/utils.py:34 | an index with only smaller values below it and only values at least `x` from it on is the first one |
| Utils.WeightedChoice | enkan/utils/utils.py:12-38 | empty inputs, a length mismatch and a total that is not positive are `ValueError`s; otherwise the result is one of the paths, on sorted weights the one at the first cumulative weight at least the scaled draw, clamped to the last path |
| Utils.ChoiceInInterval | enkan/utils/utils.py:33-37 | for a draw in [0, 1) on sorted weights with a positive total the clamp never applies: the chosen index is the one whose interval `(cum[i-1], cum[i]]` holds the scaled draw |
| Utils.LevelOfJoin | enkan/utils/utils.py:41-51 | `level_of` of components joined by the separator is the number of components |
| Utils.KeepCount | enkan/utils/utils.py:67-74 | at most the number of components: `levels_up` of them (all when fewer) for a non-negative `levels_up`, all but the last `-levels_up` (none when that is negative) otherwise |
| Utils.TruncatePath | enkan/utils/utils.py:54-75 | the components of the result are exactly the kept prefix of the path's components, so the depth never grows |
| Utils.GetDriveOrRoot | enkan/utils/utils.py:78-93 | a path with a drive gives that drive and a separator, an otherwise rooted path a lone separator, and any other path the empty string (both directions) |
| Utils.ImageNotVideo | enkan/constants.py:16-17 | no file name is both an image and a video |
| Utils.EndsInSuffixLast | enkan/utils/utils.py:138-145 | a text ending with one of the suffixes ends in one of their last characters |
| Utils.LastAgrees | enkan/utils/utils.py:138-145 | a text ends in the last character of each of its non-empty suffixes |
| Utils.IsVideoAllowed | enkan/utils/utils.py:148-161 | a node's explicit False forbids videos; otherwise an explicit command-line setting decides; otherwise a node's True allows them |
| Utils.VideoAllowedDefault | enkan/utils/utils.py:161 | without a node or command-line setting, the answer is the defaults' video setting |
| Utils.ValidFiles | enkan/utils/utils.py:164-192 | the kept paths are exactly the joined paths of listed names that are images (or videos, when allowed) and not ignored, never more than the listing and no ignored path |
| Utils.FilterValidFiles | enkan/utils/utils.py:164-192 | the loop over the listing yields exactly `ValidFiles`, in listing order |
| Filtering.Rate | enkan/utils/Filters.py:36-80 | `passes` is 1 exactly for an ignored directory; 2 exactly for a path not ignored that a keyword rejects or that lies below the lowest rung; 3 exactly for a "do not recurse" directory that passes every earlier test; 0 otherwise |
| Filtering.OneRequiredKeywordSuffices | enkan/utils/Filters.py:66-69 | one required keyword in the path is enough to pass the required-keyword test |
| Filtering.Filters.constructor | enkan/utils/Filters.py:6-14 | every set starts empty, ignore-below-bottom off and no lowest rung |
| Filtering.Filters.PreprocessIgnoredFiles | enkan/utils/Filters.py:16-19 | the directory of every ignored file is added to the ignored-file directories |
| Filtering.Filters.ConfigureIgnoreBelowBottom | enkan/utils/Filters.py:21-34 | the flag is set as given; the lowest rung is the smallest level of the mode when enabled with a non-empty mode, and none otherwise |
| Filtering.Filters.AddMustContain | enkan/utils/Filters.py:41-42 | the keyword is added to the required keywords |
| Filtering.Filters.AddMustNotContain | enkan/utils/Filters.py:44-45 | the keyword is added to the forbidden keywords |
| Filtering.Filters.AddIgnoredDir | enkan/utils/Filters.py:47-48 | the directory is added to the ignored directories |
| Filtering.Filters.AddIgnoredFile | enkan/utils/Filters.py:50-51 | the file is added to the ignored files |
| Filtering.Filters.AddDontRecurseBeyondFolder | enkan/utils/Filters.py:53-54 | the folder is added to the "do not recurse" folders |

## Left out

- Progress bars (`tqdm`) and logging calls: output only, no effect on the tree.
- `built_mode_string` and `serialise_mode`: formatting for display and saving. The model keeps the built mode as a table.
- Symbolic links and per-entry `OSError` in `os.scandir`: a directory is either readable, with its listing, or unreadable as a whole.
- `entry.path` is modelled as `ChildPath`, the `ntpath.join` of the directory and the entry name.
- `Scan.ParseFloat`: covers the decimal forms, with sign, digits, one point and an exponent. `inf`, `nan` and digit separators (`_`) are not modelled. So `float("1_0")`, which is 10.0, is a parse failure in the model: the `.lst` line `a.jpg,1_0` gives the path `a.jpg` with weight 10.0 in `enkan/tree/TreeBuilderLST.py:32-40`, but in the model the whole line is the path, with weight 1.0.
- `Scan.IsSpace`: the whitespace that `str.strip()` removes is modelled as the six ASCII whitespace characters. The separators `\x1c`-`\x1f`, `\x85`, `\xa0` and the other Unicode spaces are kept.
- `Scan.IsDigit`: only the ASCII digits. Python's `\d` in the patterns of `enkan/constants.py:19-25`, and `int()` and `float()`, accept every Unicode decimal digit, so for instance `[g٢]` grafts at level 2 in Python and is no modifier in the model.
- `Paths.Lower` and `Paths.LowerChar`: `str.lower()` in `convert_path_to_tree_format` lower-cases every letter, but the model lower-cases the ASCII letters only. A directory name with other letters (`Ä`, or `İ`, which lowers to two characters) gets another `node_lookup` key in Python than in the model.
- `TreeLogic.ExtractImagePathsAndWeights`: the `test_iterations` argument, which emits each node's name in place of its image paths, is not modelled. The model always emits the image paths, as the source does when that argument is None.
- The guard against grafting a node into its own subtree: Python would create a cycle of parent links. The model refuses the move, and `HandleGrafting` reports it as a distinct outcome.
- `MultiSource.Harmonise`: the recalculation `apply_mode_and_recalculate` that follows the mode write is not modelled. `enkan/tree/tree_logic.py` does not define that name, so the import of it at `enkan/utils/input/MultiSourceBuilder.py:9` fails and, as written, the module cannot be loaded at all. The model takes the module as if the import succeeded, and leaves out the calls of the missing function.
- `_build_tree_from_entry`, `find_input_file` and locating files on disk: each entry arrives with its file contents or listing already attached.
- Pickle I/O and `load_tree_from_file`: loading is the parameter `load` of `InputProcessing.LoadTreeIfCurrent`, and saving is not modelled.
- The `getattr(child, "graft_level", None)` reads inside `set_proportion`: a node of this tree has no `graft_level` attribute, so the read is always None, and the model skips it.
- The video branch of `TreeMerger`: it reads a node slot that `TreeNode` does not have, so it cannot run.
- `ROOT_NODE_NAME` is imported from `enkan.constants`, but `enkan/constants.py` does not define it. The model takes it to be `"root"`.
- The `debug` and `background` settings of `Defaults`: the core never reads them.
- Two parts of `process_entry` and `process_input` are outside this model: the loops that read `.lst` and `.txt` files line by line, and the unpacking of five results into four names.
- `contains_subdirectory`, `contains_files`, and the `write_*` and `load_*` helpers of `utils.py`: file I/O only.
- Python's power `c**exp` in the weighted mode is a positive parameter `pow`. Its numeric values are not modelled.
- The `import Grafting` of `TreeBuilderTXT` is modelled by the slideshow `Grafting` module.
- When the prune of empty nodes removes a node, any other `path_lookup` key that aliases that node stays in the lookup, as it does in the source.
- `TreeModel.Tree.EnsureParentExists`: its `ValueError` for a malformed UNC path is never raised. Under `ntpath.splitdrive`, every path that starts with two separators has a non-empty drive (`TreeModel.PlanParentRejectsOnlyRelative`). The `ntpath` modelled is that of Python 3.11, with its `\\?\UNC\` prefix test; the `splitdrive` of Python 3.12 is not modelled.
- `Merging.Merge`: states each visit of each later tree as a `VisitStep` between snapshots of the base, and the counts as the sums of the per-tree counts, but does not give the final attributes of each base node in closed form over all the later trees: they are the last snapshot of the chain of runs.
- `TreeModel.SetPathToLevelDepth`: covers only paths with no group and no drive. Grouped and drive-rooted paths are defined by `SetPathToLevel` but have no depth lemma.
- `InputProcessing.ClassifyAll`: states only that there is one modifier per token. Which modifier each token yields is given by the definition of `Classify`.
- `TxtBuilder.TxtBuilder.AddRoot`: states the graft of the root from the state the earlier steps leave, and that an error of those steps ends it, but does not give that state in closed form. What the steps add is stated by `EnsureStructuralRootNode`, `AddFlatBranch` and `ProcessDirectory`.
- `MultiSource.Build`: does not restate the record of the merge (the snapshots of the later trees, their runs and `MergedAll`) that `MultiSource.Finish` states. Collecting the sources before it changes only the global defaults, but carrying the record through that step is too costly for the verifier.
- `TxtBuilder.TxtBuilder.ProcessDirectory` and `TxtBuilder.TxtBuilder.Recurse`: state only that a walk visiting nothing changes nothing. They do not state that the directories processed are exactly those `Walk` visits, in the order it visits them; that is proved about `Walk` itself.
- `TxtBuilder.TxtBuilder.CreateVirtualNode`: states the node's registration in the lookups but not its attributes.
- `TxtBuilder.DirData`: a key present with the value `None` is read like an absent key. `parse_input_line` never produces such a key.

## Findings

| source | as written | input that shows it | evidently intended | confidence | as-written member | corrected member |
|---|---|---|---|---|---|---|
| enkan/tree/Tree.py:57-70 | `create_node` builds the `TreeNode` without the `user_proportion` of `node_data`, so the user's proportion is lost | a `.txt` input line for a directory with the modifier `[%30]` | the new node keeps the `user_proportion` it was given | not executed | `TreeModel.NodeFromDataAsWritten`, shown by `TreeLogic.UserProportionLost` | `TreeModel.NodeFromData` |
| enkan/utils/input/InputProcessor.py:87-89 | on a stale `.tree`, the call `self.process_entry(alt, ...)` on the sibling `.lst`/`.txt` passes neither `graft_offset` nor `apply_global_mode` | a stale `.tree` whose sibling `.lst` exists, reached with `graft_offset` 1 or with `apply_global_mode` false | the fallback keeps the caller's `graft_offset` and `apply_global_mode` | not executed | `InputProcessing.TreeFallbackAsWritten`, shown by `InputProcessing.FallbackDropsContext` | `InputProcessing.TreeFallback`, with `InputProcessing.FallbackOrder` |
