# Design-pattern demos: a verified model of their algorithms

This project is a Dafny model of the parts of the `rcavaz/Design-Patterns` Python catalogue that have behaviour worth stating:

- The binary search tree behind the Iterator demos, with its resumable in-order, pre-order and post-order iterators. There are two versions of it, `python3/behavioral/iterator/trees.py` and the older `python/behavioral/iterator/example.py`.
- The two Morse-code Interpreters, whose decoders walk a dot/dash tree. The newer one also has a depth-first encoder.
- The Roman-numeral Interpreter of four levels.
- The integer-expression calculator Interpreter: tokenizer, group collapsing, operator passes and evaluation.
- The base-converter chain of responsibility.
- The smaller state machines: the Fibonacci memento, the index-based list iterator, the linked list and its iterator, the command history with undo, the handler-table chain, the flyweight factory and the filtering visitor.

One Dafny module models each source file:

| module | file |
|---|---|
| `Outcomes` | `Option` and `Result` |
| `Trees` | the tree of `trees.py`, and `addChild` of `example.py` |
| `TreeIterators` | the iterators of `trees.py` |
| `TreeExamples` | their test trees |
| `LegacyTreeIterators` | `example.py` |
| `Morse` | `morse.py` |
| `MorseLegacy` | `morse_code.py` |
| `Roman` | `roman2decimal.py` |
| `Calc` | `calc.py` |
| `Pipeline` | `pipeline.py` |
| `Fibonacci` | `fibo.py` |
| `ListIterator` | `iterator.py` |
| `LinkedList` | `lists.py` |
| `CommandHistory` | `arg_parse.py` |
| `HandlerChain` | `framework.py` |
| `Flyweight` | `flyweight.py` |
| `FilterVisitor` | `visitor/example.py` |

How the Python maps to Dafny:

- Python classes whose fields change become Dafny classes with `modifies` clauses. Loops stay loops, with their invariants.
- Pure recursion becomes functions.
- Every method with a loop, and every method that changes an iterator's position, is proved against a specification function. Getters and setters state the fields they read or write. The properties of the specification functions are stated as lemmas, such as:
  - the traversal it yields;
  - the decoding it computes;
  - the round trip, with encode followed by decode;
  - "nothing else changes".
- Python exceptions become the `Err` side of a `Result`, named after the exception.
- The tree is a value (`Leaf | Node(left, value, right)`). An iterator's stack is a `seq` of subtrees whose top is the last element, as with Python's `append`/`pop`.
- Python's `None` on that stack is `Leaf`.

## Model

| member | source | states |
|---|---|---|
| Trees.NodeGe | python3/behavioral/iterator/trees.py:189-191 | `>=` defined as "greater or equal" is the order of the values, and is the negation of `<` |
| Trees.NodeLe | python3/behavioral/iterator/trees.py:193-195 | `<=` defined as "less or equal" is the order of the values, and is the negation of `>` |
| Trees.NodeNe | python3/behavioral/iterator/trees.py:197-199 | "not equal" holds exactly when one node is less or greater |
| Trees.InOrder | python3/behavioral/iterator/trees.py:319-326 | the in-order walk has one entry per node of the tree |
| Trees.PreOrder | python3/behavioral/iterator/trees.py:328-335 | the pre-order walk has one entry per node of the tree |
| Trees.PostOrder | python3/behavioral/iterator/trees.py:337-344 | the post-order walk has one entry per node of the tree |
| Trees.InOrderElements | python3/behavioral/iterator/trees.py:319-326 | the in-order walk lists every node exactly once: its values, with multiplicity, are the tree's |
| Trees.PreOrderElements | python3/behavioral/iterator/trees.py:328-335 | the pre-order walk lists every node exactly once |
| Trees.PostOrderElements | python3/behavioral/iterator/trees.py:337-344 | the post-order walk lists every node exactly once |
| Trees.AddChild | python3/behavioral/iterator/trees.py:201-212 | adding a value gives a non-empty tree with one more node, whose multiset of values gains exactly that value |
| Trees.AddChildRoutes | python3/behavioral/iterator/trees.py:201-212 | a node less than the root goes into the left subtree and leaves the right one untouched; a node not less (`>=`) goes right and leaves the left one untouched |
| Trees.AddChildBelow | python3/behavioral/iterator/trees.py:201-212 | adding a value below a bound to a tree whose values are all below it keeps them all below |
| Trees.AddChildAtLeast | python3/behavioral/iterator/trees.py:201-212 | the same for a lower bound: a value at least the bound keeps every value at least the bound |
| Trees.AddChildKeepsBst | python3/behavioral/iterator/trees.py:201-212 | `addChild` preserves the search-tree order: left values strictly less, right values not less than each node |
| Trees.InOrderSorted | python3/behavioral/iterator/trees.py:319-326 | the in-order walk of a search tree is non-decreasing |
| Trees.InsertAll | python3/behavioral/iterator/trees.py:285-299 | inserting a run of values adds one node per value, and the tree's values are the old ones plus those |
| Trees.InsertAllSorted | python3/behavioral/iterator/trees.py:319-326 | inserting any run of values into a search tree keeps it a search tree, so its in-order walk is sorted (and, by `InsertAll`, holds exactly the old values and the inserted ones) |
| Trees.AddChildAttachesLeaf | python/behavioral/iterator/example.py:130-143 | the new node is a childless node at the end of the search route, which was an empty place. Its `parent` is the node one step up, and the last step goes right exactly when the value is not less than the parent's |
| Trees.BinaryTree.constructor | python3/behavioral/iterator/trees.py:222-224 | a new tree is empty, with count 0 |
| Trees.BinaryTree.Length | python3/behavioral/iterator/trees.py:226-227 | `len` is the number of nodes the in-order walk visits |
| Trees.BinaryTree.Insert | python3/behavioral/iterator/trees.py:229-235 | `insert` places the value by `addChild`, keeps the search-tree order and the count invariant, grows the count by one and adds exactly that value |
| Trees.InsertScenarios | python3/behavioral/iterator/trees.py:285-299 | inserting 1 then 2 hangs 2 on the right; 2 then 1 hangs 1 on the left |
| TreeExamples.TwoOneThreeTree | python3/behavioral/iterator/trees.py:313-316 | inserting 2, 1, 3 gives the tree with 2 at the root and 1 and 3 as children |
| TreeExamples.TwoOneThreeWalks | python3/behavioral/iterator/trees.py:319-344 | that tree walks 1,2,3 in order, 2,1,3 in pre-order and 1,3,2 in post-order |
| TreeIterators.LeftSpine | python3/behavioral/iterator/trees.py:41-45 | what `__fillStack` pushes starts with the cursor itself, even an empty one (Python's `None`), and goes on down the left children |
| TreeIterators.InOrderAdvance | python3/behavioral/iterator/trees.py:54-62 | popping the top node and refilling from its right child leaves the rest of the in-order walk pending |
| TreeIterators.InOrderIterator.constructor | python3/behavioral/iterator/trees.py:26-32 | a new in-order iterator has the root's left spine on its stack, count 0 and no current item, with the whole in-order walk pending |
| TreeIterators.InOrderIterator.FillStack | python3/behavioral/iterator/trees.py:41-45 | the loop pushes exactly the cursor's left spine on top of what the stack held |
| TreeIterators.InOrderIterator.IsDone | python3/behavioral/iterator/trees.py:47-52 | done exactly when `count` has reached `len(tree)`; it changes nothing |
| TreeIterators.InOrderIterator.CurrentItem | python3/behavioral/iterator/trees.py:64-65 | `currentItem` is the node of the last in-order value produced; `None` only before the first value or once the walk is done |
| TreeIterators.InOrderIterator.Next | python3/behavioral/iterator/trees.py:54-62 | when not done, `next` returns the in-order value at position `count`, advances the count by one and leaves the refilled stack. When done, it returns `None` and `current` is `None`, with count and stack unchanged. `current` is what was returned, which is what `currentItem` gives back |
| TreeIterators.InOrderIterator.First | python3/behavioral/iterator/trees.py:34-39 | `first` restarts from any state: on an empty tree it gives `None`, otherwise the smallest value with count 1 and the rest of the walk pending |
| TreeIterators.PreOrderAdvance | python3/behavioral/iterator/trees.py:101-116 | popping the top node, then popping the entry below it and pushing back its right child, left child and itself, keeps the rest of the pre-order walk pending |
| TreeIterators.PreOrderIterator.constructor | python3/behavioral/iterator/trees.py:70-76 | a new pre-order iterator holds the root's children and the root on top, with count 0 and the whole pre-order walk pending |
| TreeIterators.PreOrderIterator.FillStack | python3/behavioral/iterator/trees.py:85-92 | an empty cursor pushes nothing; otherwise its right child, its left child and then the cursor itself are pushed, so the cursor comes out first and its left child before its right |
| TreeIterators.PreOrderIterator.IsDone | python3/behavioral/iterator/trees.py:94-99 | done exactly when `count` has reached `len(tree)` |
| TreeIterators.PreOrderIterator.CurrentItem | python3/behavioral/iterator/trees.py:118-119 | `currentItem` is the node of the last pre-order value produced; `None` only before the first value or once the walk is done |
| TreeIterators.PreOrderIterator.Next | python3/behavioral/iterator/trees.py:101-116 | when not done, `next` returns the pre-order value at position `count` and advances; when done, `None` with nothing else changed |
| TreeIterators.PreOrderIterator.First | python3/behavioral/iterator/trees.py:78-83 | `first` restarts and returns the root, with count 1 |
| TreeIterators.PostOrderSchedule | python3/behavioral/iterator/trees.py:141-148 | the stack `__fillStack` precomputes pops as the post-order walk |
| TreeIterators.PostOrderIterator.constructor | python3/behavioral/iterator/trees.py:124-132 | a new post-order iterator has the whole schedule precomputed, with the post-order walk pending |
| TreeIterators.PostOrderIterator.FillStack | python3/behavioral/iterator/trees.py:141-148 | the recursive fill appends the node's schedule to the stack |
| TreeIterators.PostOrderIterator.IsDone | python3/behavioral/iterator/trees.py:150-155 | done exactly when `count` has reached `len(tree)` |
| TreeIterators.PostOrderIterator.CurrentItem | python3/behavioral/iterator/trees.py:165-166 | `currentItem` is the node of the last post-order value produced; `None` only before the first value or once the walk is done |
| TreeIterators.PostOrderIterator.Next | python3/behavioral/iterator/trees.py:157-163 | `next` only pops: when not done, the post-order value at position `count`; when done, `None` |
| TreeIterators.PostOrderIterator.First | python3/behavioral/iterator/trees.py:134-139 | `first`, which pushes the root twice, still returns the first post-order value, and the next `len - 1` results are still the rest of the walk; the duplicate root is left as surplus below them |
| TreeIterators.IteratorKind | python3/behavioral/iterator/trees.py:237-243 | 'inorder', 'preorder' and 'postorder' select their iterator class, and any other name gives `KeyError` |
| TreeIterators.DrainInOrder | python3/behavioral/iterator/trees.py:319-326 | calling `next` until `None` yields exactly the in-order walk, `len(tree)` values, and then the sentinel |
| TreeIterators.DrainPreOrder | python3/behavioral/iterator/trees.py:328-335 | draining the pre-order iterator yields exactly the pre-order walk, then `None` |
| TreeIterators.DrainPostOrder | python3/behavioral/iterator/trees.py:337-344 | draining the post-order iterator yields exactly the post-order walk, then `None` |
| TreeIterators.DrainNamed | python3/behavioral/iterator/trees.py:301-309 | `tree.iterator(name)` drained gives the walk of the named kind, or `KeyError` for an unknown name |
| LegacyTreeIterators.InOrderIterator.constructor | python/behavioral/iterator/example.py:20-27 | the constructor needs a non-empty tree and leaves the iterator unprimed: empty stack, count 0, no current item |
| LegacyTreeIterators.InOrderIterator.FillStack | python/behavioral/iterator/example.py:50-59 | with no current item the root's left spine is pushed, otherwise the spine of the current node's right child |
| LegacyTreeIterators.InOrderIterator.Pop | python/behavioral/iterator/example.py:43-49 | `pop` returns the old top, makes it current and refills the stack from its right child |
| LegacyTreeIterators.InOrderIterator.IsDone | python/behavioral/iterator/example.py:60-66 | done exactly when `count` has reached the node count |
| LegacyTreeIterators.InOrderIterator.CurrentItem | python/behavioral/iterator/example.py:67-69 | before the first `next`, `currentItem` raises `AttributeError` (its log message reads `None.value`); afterwards it is the node of the last in-order value produced |
| LegacyTreeIterators.InOrderIterator.Next | python/behavioral/iterator/example.py:35-42 | when not done, the in-order value at position `count` and one step on; when done, `None` with `current` and `count` left as they were |
| LegacyTreeIterators.InOrderIterator.First | python/behavioral/iterator/example.py:28-34 | `first` clears the state and returns the smallest value with count 1, so the next call gives the second value |
| LegacyTreeIterators.PreOrderIterator.constructor | python/behavioral/iterator/example.py:73-80 | needs a non-empty tree; starts with nothing returned yet |
| LegacyTreeIterators.PreOrderIterator.FillStack | python/behavioral/iterator/example.py:87-92 | pushes the current node's right child and then its left child, each if present |
| LegacyTreeIterators.PreOrderIterator.IsDone | python/behavioral/iterator/example.py:104-110 | done exactly when `count` has reached the node count |
| LegacyTreeIterators.PreOrderIterator.CurrentItem | python/behavioral/iterator/example.py:111-113 | before the first `next`, `currentItem` raises `AttributeError`; afterwards it is the node of the last pre-order value produced |
| LegacyTreeIterators.PreOrderIterator.Next | python/behavioral/iterator/example.py:93-103 | the first call returns the root; later calls pop, giving the pre-order value at position `count`; done gives `None` |
| LegacyTreeIterators.PreOrderIterator.First | python/behavioral/iterator/example.py:81-86 | `first` returns the root |
| LegacyTreeIterators.IteratorKind | python/behavioral/iterator/example.py:159-172 | 'inorder' and 'preorder' select their class; 'postorder' names an undefined class; other kinds fail |
| LegacyTreeIterators.DrainInOrder | python/behavioral/iterator/example.py:180-186 | draining yields the in-order walk, `len` values, then `None`; the last node stays current |
| LegacyTreeIterators.DrainPreOrder | python/behavioral/iterator/example.py:187-193 | draining yields the pre-order walk: root first, left child second |
| Morse.Interpretation | python3/behavioral/interpreter/morse.py:85-114 | one `interpret_morse` call leaves a suffix of the Morse text, strictly shorter unless the text was empty |
| Morse.InterpretWalk | python3/behavioral/interpreter/morse.py:86-112 | a run of dots and dashes moves to the dot or dash child, one character each. At the end of input or a space it emits the character of the node reached; a three-space gap loses two of its spaces there and leaves the third |
| Morse.InterpretRejects | python3/behavioral/interpreter/morse.py:114 | any character other than '.', '-' or ' ' raises the syntax error |
| Morse.InterpretAccepts | python3/behavioral/interpreter/morse.py:86-112 | on text made only of '.', '-' and ' ', an interpretation step never raises |
| Morse.InterpretConsumed | python3/behavioral/interpreter/morse.py:86-114 | a successful step consumed only '.', '-' and ' ' characters |
| Morse.DecodingSucceeds | python3/behavioral/interpreter/morse.py:259-265 | `decode` succeeds exactly when every character is '.', '-' or ' ' |
| Morse.Decoding | python3/behavioral/interpreter/morse.py:259-265 | `decode` can fail only with the syntax error, never with `IndexError` |
| Morse.SearchLocate | python3/behavioral/interpreter/morse.py:42-68 | the `left or right` search finds the same path as the dot-first search of the tree |
| Morse.LocateSound | python3/behavioral/interpreter/morse.py:42-68 | a found path leads from the root to the node holding the character |
| Morse.LocateComplete | python3/behavioral/interpreter/morse.py:42-68 | in a tree built like the client's, a character some dot/dash path reaches is always found by the search |
| Morse.DecodeTable | python3/behavioral/interpreter/morse.py:198-257 | the tree is the table of International Morse Code (ITU-R M.1677-1, Part I, section 1.1.1): each letter's code walks from the root to that letter |
| Morse.LocateTable | python3/behavioral/interpreter/morse.py:198-257 | the path the encoder finds for each of the 26 letters is its international code |
| Morse.LocateOnlyLetters | python3/behavioral/interpreter/morse.py:198-257 | only capital letters are found in the tree |
| Morse.EncodeCharTable | python3/behavioral/interpreter/morse.py:34-68 | `encode(char)` gives ' ' for a space, the international code for a capital letter, and `None` otherwise |
| Morse.EncodingSucceeds | python3/behavioral/interpreter/morse.py:116-125 | `MorseClient.encode` succeeds exactly when every character is a capital letter or a space |
| Morse.Encoding | python3/behavioral/interpreter/morse.py:267-273 | `encode` can fail only with the syntax error |
| Morse.EncodingIsTable | python3/behavioral/interpreter/morse.py:267-273 | the encoding is the letter codes joined with one space after every character but the last |
| Morse.RoundTrip | python3/behavioral/interpreter/morse.py:259-273 | decoding the encoding of capital letters and spaces that does not start with a space gives the message back |
| Morse.Context.constructor | python3/behavioral/interpreter/morse.py:10-30 | a context starts with the given Morse and text |
| Morse.InterpretMorse | python3/behavioral/interpreter/morse.py:85-114 | `interpret_morse` changes the context as one interpretation step does: the character appended, the Morse consumed, or the syntax error |
| Morse.InterpretAbc | python3/behavioral/interpreter/morse.py:116-128 | `interpret_abc` appends the first character's code and a separator. An empty text raises `IndexError` with nothing changed; a character without a code is dropped and raises the syntax error |
| Morse.MorseClient.Decode | python3/behavioral/interpreter/morse.py:259-265 | the `decode` loop computes the decoding of the whole Morse text |
| Morse.MorseClient.Encode | python3/behavioral/interpreter/morse.py:267-273 | the `encode` loop computes the encoding of the whole text |
| Morse.FollowTerminal | python3/behavioral/interpreter/morse.py:140-146 | a terminal's dot and dash children are itself, so any path from it stays there |
| Morse.OffTheTree | python3/behavioral/interpreter/morse.py:133-154 | a path that runs off the tree ('..--') decodes to '<?>' |
| Morse.SosMessage | python3/behavioral/interpreter/morse.py:278-281 | 'SOS' encodes as '... --- ...', which decodes to 'SOS' |
| Morse.KaDeMessage | python3/behavioral/interpreter/morse.py:283-297 | 'KA DE RCAVAZ' encodes word by word with three spaces between words, and decodes back |
| Morse.LeadingSpace | python3/behavioral/interpreter/morse.py:86-100 | a leading space does not round-trip: ' E' encodes as '  .' and decodes as '  E' |
| MorseLegacy.LowerCase | behavioral/examples/interpreter/morse_code.py:98-165 | the older tree's labels are the lower-case forms of the newer tree's capital letters; other characters are kept |
| MorseLegacy.Lower | behavioral/examples/interpreter/morse_code.py:98-165 | the older tree has the newer one's shape: each node keeps its kind and gets the lower-case label |
| MorseLegacy.Interpretation | behavioral/examples/interpreter/morse_code.py:26-48 | one `interpret` call leaves a shorter suffix of the input: one character, or two for a leading double blank |
| MorseLegacy.Context.constructor | behavioral/examples/interpreter/morse_code.py:4-22 | a context starts with the given input and empty output |
| MorseLegacy.Interpret | behavioral/examples/interpreter/morse_code.py:26-48 | `interpret` changes the context as one interpretation step does |
| MorseLegacy.Decode | behavioral/examples/interpreter/morse_code.py:96-167 | the `main` loop computes the decoding of the whole input |
| MorseLegacy.Decoding | behavioral/examples/interpreter/morse_code.py:164-167 | the decode loop can fail only with the syntax error |
| MorseLegacy.Walk | behavioral/examples/interpreter/morse_code.py:39-46 | dots and dashes descend to the dot or dash child, one character each |
| MorseLegacy.Rejects | behavioral/examples/interpreter/morse_code.py:47-48 | any other character raises the syntax error |
| MorseLegacy.BlankRuns | behavioral/examples/interpreter/morse_code.py:27-38 | the end of input or a blank emits the current character; a double blank is consumed as one unit |
| MorseLegacy.FollowLower | behavioral/examples/interpreter/morse_code.py:60-93 | walking the older tree reaches the lower-case form of the node the newer one reaches |
| MorseLegacy.SosMessage | behavioral/examples/interpreter/morse_code.py:96-167 | '... --- ...' decodes to 'sos' |
| Roman.Head | behavioral/examples/interpreter/roman2decimal.py:27-35 | the pattern step adds 0, 4, 5 or 9 times the level's multiplier and drops at most two characters |
| Roman.RunSpec | behavioral/examples/interpreter/roman2decimal.py:37-39 | the repeat loop takes every leading one-symbol and stops at the first other character |
| Roman.Interpretation | behavioral/examples/interpreter/roman2decimal.py:23-39 | an empty numeral adds nothing and is left as it is; the gain is never negative |
| Roman.InterpretationSuffix | behavioral/examples/interpreter/roman2decimal.py:23-39 | what a level leaves is a suffix of what it was given |
| Roman.Context.constructor | behavioral/examples/interpreter/roman2decimal.py:4-19 | a context starts with the numeral and decimal 0 |
| Roman.Interpret | behavioral/examples/interpreter/roman2decimal.py:23-39 | `interpret` adds the level's value to `decimal`, which never decreases, and leaves the rest of the numeral |
| Roman.ReadPattern | behavioral/examples/interpreter/roman2decimal.py:27-35 | the `if`/`elif` chain checks nine, four and five in that order and applies the first match |
| Roman.ReadOnes | behavioral/examples/interpreter/roman2decimal.py:37-39 | the `while` loop adds one multiplier per leading one-symbol, with no bound on the count |
| Roman.Evaluate | behavioral/examples/interpreter/roman2decimal.py:90-105 | `main` applies Thousand, Hundred, Ten and Base in turn; the result and the leftover are those of the four levels |
| Roman.Regular | behavioral/examples/interpreter/roman2decimal.py:58-87 | the symbol tables of the lower three levels have the usual shape: nine and four start with the one-symbol |
| Roman.ThousandSpaceFree | behavioral/examples/interpreter/roman2decimal.py:58-63 | on a numeral that does not start with a space, the thousand level counts only the leading 'M's |
| Roman.ThousandSpace | behavioral/examples/interpreter/roman2decimal.py:58-63 | a leading space matches the thousand level's single-space nine pattern: 9000 |
| Roman.RomanRoundTrip | behavioral/examples/interpreter/roman2decimal.py:23-87 | the usual Roman spelling of any number reads back as that number with nothing left over |
| Roman.Unbounded | behavioral/examples/interpreter/roman2decimal.py:37-39 | a level reads any number `k` of its one-symbols as `k` times its multiplier, with no bound of three |
| Roman.ClientNumeral | behavioral/examples/interpreter/roman2decimal.py:92-105 | 'MCMLXXXVII' reads as 1987 |
| Roman.Leftover | behavioral/examples/interpreter/roman2decimal.py:92-105 | characters that no level consumes are silently left: 'XM' gives 10, with 'M' left over |
| Calc.DigitRun | python3/behavioral/interpreter/calc.py:76 | a digit token is a maximal run of digits |
| Calc.TokenizeKept | python3/behavioral/interpreter/calc.py:76 | the tokens, put back together, are the input without its other characters; each token is a digit run or one of `* / + - ( )` |
| Calc.Tokenize | python3/behavioral/interpreter/calc.py:76 | `findall` gives no more tokens than characters, and each token is a non-empty digit run or one of `* / + - ( )` |
| Calc.DigitValue | python3/behavioral/interpreter/calc.py:26-28 | a one-digit token becomes the number it spells |
| Calc.NumbersOfTokens | python3/behavioral/interpreter/calc.py:109-118 | the `ValueError` that `int` raises on an operator or parenthesis is caught, so the list after `__parse_numbers` holds only numbers and the operator and parenthesis tokens in their places |
| Calc.IndexOf | python3/behavioral/interpreter/calc.py:123 | `list.index` finds the first occurrence |
| Calc.Combine | python3/behavioral/interpreter/calc.py:147-153 | one combination: an operator in last place raises `IndexError`; otherwise the list shrinks by exactly two |
| Calc.CombineAt | python3/behavioral/interpreter/calc.py:147-153 | an inner operator is replaced, with its two neighbours, by the tree over them; the other entries keep their order |
| Calc.Pass | python3/behavioral/interpreter/calc.py:147-156 | one operator's pass never lengthens the list; when it succeeds, the operator is gone unless one entry is left; it fails only with `IndexError` |
| Calc.Reduced | python3/behavioral/interpreter/calc.py:139-157 | `__build_tree` leaves a non-empty list no longer than its input, or fails with `IndexError` |
| Calc.TreeOf | python3/behavioral/interpreter/calc.py:139-157 | an empty list fails with `IndexError`, a list of one entry is its own tree, and no other failure occurs |
| Calc.ScanGroup | python3/behavioral/interpreter/calc.py:124-132 | the scan stops at the first ')', and the group opened by the last '(' before it contains no parenthesis |
| Calc.NextRound | python3/behavioral/interpreter/calc.py:120-137 | a round finishes exactly when no '(' is left; a collapsed group makes the list shorter |
| Calc.Operations | python3/behavioral/interpreter/calc.py:120-137 | `__parse_operations` ends with a non-empty list, or fails with `IndexError` or by looping forever |
| Calc.OperationsDone | python3/behavioral/interpreter/calc.py:135-137 | with no '(' left the whole list is built |
| Calc.OperationsUnbalanced | python3/behavioral/interpreter/calc.py:122-134 | a '(' with no ')' after it: the loop never ends, which the model shows as `Unbalanced` |
| Calc.OperationsFallback | python3/behavioral/interpreter/calc.py:129-137 | a group that fails to build falls back, through the bare `except`, to building the whole list |
| Calc.OperationsCollapse | python3/behavioral/interpreter/calc.py:128-130 | a group that builds is replaced, parentheses included, by its tree, and parsing goes on from there |
| Calc.PassFlat | python3/behavioral/interpreter/calc.py:146-155 | on an alternating operand/operator list, one operator's pass removes every occurrence of it and keeps the list alternating |
| Calc.ReducedFlat | python3/behavioral/interpreter/calc.py:139-157 | an alternating list reduces to exactly one tree |
| Calc.TreeOfChain | python3/behavioral/interpreter/calc.py:147-153 | chains of one operator associate to the left |
| Calc.PlusBeforeMinus | python3/behavioral/interpreter/calc.py:146 | the fixed order combines '+' before '-': `x - y + z` becomes `x - (y + z)` |
| Calc.OperationsChain | python3/behavioral/interpreter/calc.py:120-157 | a chain of one operator without parentheses parses to its left-nested tree |
| Calc.OperationsGroup | python3/behavioral/interpreter/calc.py:120-157 | a parenthesised pair followed by an operator and an operand builds the group first |
| Calc.SumExpression | python3/behavioral/interpreter/calc.py:170-176 | '1+2+3' builds Sum(Sum(1, 2), 3) and solves to 6 |
| Calc.GroupExpression | python3/behavioral/interpreter/calc.py:177-186 | '(1+2)*3' builds Multiply(Sum(1, 2), 3) and solves to 9 |
| Calc.Value | python3/behavioral/interpreter/calc.py:30-68 | `interpret` succeeds exactly on trees of numbers joined by `*`, `+` and `-`; otherwise it fails, on a string left in the tree or on `/` |
| Calc.ChainValue | python3/behavioral/interpreter/calc.py:30-68 | a left-nested chain of numbers over `*`, `+` or `-` interprets as the left fold of its numbers |
| Calc.Solution | python3/behavioral/interpreter/calc.py:163-165 | `solve` succeeds exactly when the pipeline leaves a list whose first entry `interpret` can compute |
| Calc.ChainSolution | python3/behavioral/interpreter/calc.py:163-176 | an expression of numbers joined by one of `*`, `+`, `-`, without parentheses, solves to the left fold of its numbers |
| Calc.Client.constructor | python3/behavioral/interpreter/calc.py:100-104 | the client ends with the list the pipeline computes, or with the exception it raises; `solve` is then the solution |
| Calc.Client.ParseNumbers | python3/behavioral/interpreter/calc.py:109-118 | the loop converts the list in place to its numbers |
| Calc.Client.ParseOperations | python3/behavioral/interpreter/calc.py:120-137 | the loop computes the operations of the list, or the error they raise |
| Calc.Client.ScanFrom | python3/behavioral/interpreter/calc.py:124-132 | the inner `while` finds the group the scan function names |
| Calc.Client.BuildTree | python3/behavioral/interpreter/calc.py:139-157 | the passes' loops compute the reduced list and return its first entry, or the error |
| Pipeline.DigitValue | python3/behavioral/chain/pipeline.py:38 | a digit character has a value below 16 |
| Pipeline.Unprefixed | python3/behavioral/chain/pipeline.py:38 | `int` either keeps the text or drops exactly its first two characters, a '0' and the base letter in either case, and only in base 2, 8 or 16 |
| Pipeline.IntOfRendered | python3/behavioral/chain/pipeline.py:38 | `int(s, base)` reads back `bin`, `oct` or `hex` of any natural number as that number |
| Pipeline.Links | python3/behavioral/chain/pipeline.py:27-32 | the successor links start at the converter asked |
| Pipeline.Handle | python3/behavioral/chain/pipeline.py:34-43 | `handle_request` raises `RuntimeError` exactly when no converter along the successor links has a prefix that starts the request |
| Pipeline.FirstMatch | python3/behavioral/chain/pipeline.py:36 | the first converter whose prefix starts the request, and none before it |
| Pipeline.HandleFirstMatch | python3/behavioral/chain/pipeline.py:34-43 | a request is read in the base of the first matching converter, with no later converter consulted; with no match it raises `RuntimeError` |
| Pipeline.ChainOrder | python3/behavioral/chain/pipeline.py:48-56 | the chain tries binary, then octal, then hexadecimal |
| Pipeline.NumeralValue | python3/behavioral/chain/pipeline.py:58-68 | reading back the digits of `n` in base 2, 8 or 16 gives `n` |
| Pipeline.BinaryRoundTrip | python3/behavioral/chain/pipeline.py:58-62 | `bin(n)` sent to the chain comes back as `n` |
| Pipeline.OctalRoundTrip | python3/behavioral/chain/pipeline.py:63-65 | `oct(n)` is passed on once and comes back as `n` |
| Pipeline.HexadecimalRoundTrip | python3/behavioral/chain/pipeline.py:66-68 | `hex(n)` is passed on twice and comes back as `n` |
| Pipeline.UnknownRequest | python3/behavioral/chain/pipeline.py:70-73 | '0p9Hx7$' fails through the whole chain with `RuntimeError` |
| Pipeline.MatchedButMalformed | python3/behavioral/chain/pipeline.py:36-38 | a matched prefix is final: '0b12' raises `ValueError` and is not forwarded |
| Fibonacci.StepsFib | python3/behavioral/memento/fibo.py:20-28 | the first `next` only sets `b` to 1; from the second on, `a` and `b` are consecutive Fibonacci numbers and `c` is the larger |
| Fibonacci.CurrentAfter | python3/behavioral/memento/fibo.py:16-28 | `current` after `k` calls is 0 for `k` < 2, and the `k`-th Fibonacci number after that |
| Fibonacci.FibonacciIterator.constructor | python3/behavioral/memento/fibo.py:11-14 | a fresh iterator has all fields 0, so `current` is 0 |
| Fibonacci.FibonacciIterator.Current | python3/behavioral/memento/fibo.py:16-18 | `current` reads `c` and changes nothing |
| Fibonacci.FibonacciIterator.Next | python3/behavioral/memento/fibo.py:20-28 | `next` takes one step of the recurrence and returns the new `current` |
| Fibonacci.FibonacciIterator.Memento | python3/behavioral/memento/fibo.py:30-35 | reading the memento snapshots every field and changes nothing |
| Fibonacci.FibonacciIterator.Restore | python3/behavioral/memento/fibo.py:37-43 | assigning a memento replaces the whole state |
| Fibonacci.SaveRestore | python3/behavioral/memento/fibo.py:30-43 | after `k` steps the iterator is `k` steps of the recurrence past the memento, and writing the memento back restores the state it was taken from |
| Fibonacci.RollBack | python3/behavioral/memento/fibo.py:51-60 | seven steps leave `current` at 13; restoring the last three mementos gives 8, 5 and 3 |
| ListIterator.ConcreteAggregate.constructor | python/behavioral/iterator/iterator.py:86-90 | a new aggregate is empty, with `len` 0 |
| ListIterator.ConcreteAggregate.Push | python/behavioral/iterator/iterator.py:89-92 | `push` appends, and `len` grows by one |
| ListIterator.ConcreteAggregate.CreateIterator | python/behavioral/iterator/iterator.py:93-94 | a new iterator over this aggregate, before its first element |
| ListIterator.ConcreteIterator.constructor | python/behavioral/iterator/iterator.py:36-41 | a new iterator has count -1 and no current item |
| ListIterator.ConcreteIterator.IsDone | python/behavioral/iterator/iterator.py:60-66 | done exactly when count + 1 has reached `len`; it changes nothing |
| ListIterator.ConcreteIterator.Next | python/behavioral/iterator/iterator.py:49-58 | with elements left, `next` advances the count and returns the element there; when done, `None` with the count unchanged |
| ListIterator.ConcreteIterator.First | python/behavioral/iterator/iterator.py:43-47 | `first` sets the count to 0 and returns the first element, or raises `IndexError` on an empty aggregate |
| ListIterator.Walk | python/behavioral/iterator/iterator.py:49-58 | successive `next` calls return the elements in push order, then `None` |
| ListIterator.Rewind | python/behavioral/iterator/iterator.py:43-47 | `first` after any amount of iteration returns the first element |
| ListIterator.IteratorTests | python/behavioral/iterator/iterator.py:98-110 | pushing 0, 1 and 2 iterates as 0, 1, 2; then done, and `first` gives 0 |
| LinkedList.Node.constructor | python3/behavioral/iterator/lists.py:36-38 | a new node is a list of one |
| LinkedList.Node.Add | python3/behavioral/iterator/lists.py:58-63 | `add` hangs the node at the tail: the values become the old ones followed by the added list's |
| LinkedList.Node.SetChild | python3/behavioral/iterator/lists.py:53-56 | the `child` setter takes only a node and sets the link |
| LinkedList.Node.Iterate | python3/behavioral/iterator/lists.py:40-41 | `__iter__` gives an iterator with the whole list pending |
| LinkedList.Iterator.constructor | python3/behavioral/iterator/lists.py:10-13 | a new iterator is at the start, with the list's values pending |
| LinkedList.Iterator.Next | python3/behavioral/iterator/lists.py:15-26 | the first call returns the head and each later one the child; off the end the result stands for `StopIteration`, exactly when `isDone` holds |
| LinkedList.Collect | python3/behavioral/iterator/lists.py:15-32 | iterating until `StopIteration` gives the list's values in order |
| LinkedList.ZeroToFour | python3/behavioral/iterator/lists.py:66-79 | 0 followed by `add`s of 1 to 4 iterates as 0, 1, 2, 3, 4 |
| CommandHistory.Command.constructor | python3/behavioral/command/arg_parse.py:8-12 | a new command's history is 'Foo', 'Bar', 'Baz' |
| CommandHistory.Command.Execute | python3/behavioral/command/arg_parse.py:23-32 | `execute` greets the name; a complex command pushes it on the history, a simple one leaves the history alone |
| CommandHistory.Command.Unexecute | python3/behavioral/command/arg_parse.py:34-37 | `unexecute` pops the latest name and says goodbye to it; an empty history raises `IndexError`; a simple command has no `unexecute` |
| CommandHistory.ExecuteThenUndo | python3/behavioral/command/arg_parse.py:29-37 | execute then undo says goodbye to the same name and restores the history |
| CommandHistory.Farewells | python3/behavioral/command/arg_parse.py:48-50 | the farewells for a history go to its names, most recent first |
| CommandHistory.UndoAll | python3/behavioral/command/arg_parse.py:34-37 | undoing until the history is empty says goodbye to every name, last in first out |
| CommandHistory.Invoker.constructor | python3/behavioral/command/arg_parse.py:79-85 | a new invoker holds no command |
| CommandHistory.Invoker.StoreCommand | python3/behavioral/command/arg_parse.py:87-90 | `storeCommand` replaces any command stored before |
| CommandHistory.Invoker.Operation1 | python3/behavioral/command/arg_parse.py:92-94 | `operation1` is the stored command's `execute`; with none stored it raises `AttributeError` |
| CommandHistory.Invoker.Operation2 | python3/behavioral/command/arg_parse.py:96-98 | `operation2` is the stored command's `unexecute`, with the same failures |
| CommandHistory.SimpleClient | python3/behavioral/command/arg_parse.py:54-63 | 'greet' stores a new simple command; any other name fails the receiver assertion |
| CommandHistory.ComplexClient | python3/behavioral/command/arg_parse.py:66-76 | 'greet' or 'dismiss' stores a new complex command; any other name fails the assertion |
| CommandHistory.GreetTest | python3/behavioral/command/arg_parse.py:121-127 | a simple 'greet' greets 'World' |
| CommandHistory.DismissTest | python3/behavioral/command/arg_parse.py:129-134 | three undos of a complex command say goodbye to Baz, Bar and Foo |
| HandlerChain.Composite.constructor | python3/behavioral/chain/framework.py:28-31 | a new composite has no children, no handlers and no successor |
| HandlerChain.Composite.Add | python3/behavioral/chain/framework.py:37-39 | `add` makes this composite the child's successor and appends the child; nothing else changes |
| HandlerChain.Composite.SetHandler | python3/behavioral/chain/framework.py:45-51 | the setter adds or replaces one entry and leaves the others |
| HandlerChain.Composite.HandleRequest | python3/behavioral/chain/framework.py:53-64 | the answer is the handler of the first composite along the successor chain that has one for the name, or `False` if none has |
| HandlerChain.Holder | python3/behavioral/chain/framework.py:53-61 | the holder has a handler for the name and no composite before it has one; no holder means none along the chain has |
| HandlerChain.Answer | python3/behavioral/chain/framework.py:53-64 | a request is answered exactly when some composite along the chain has a handler for its name |
| HandlerChain.HolderLast | python3/behavioral/chain/framework.py:92-102 | when only the last composite has the handler, it is the holder |
| HandlerChain.LoneComposite | python3/behavioral/chain/framework.py:79-83 | a composite without handlers answers `False` |
| HandlerChain.OwnHandler | python3/behavioral/chain/framework.py:85-90 | a composite's own handler answers 'Hello, World!' |
| HandlerChain.Stack | python3/behavioral/chain/framework.py:92-97 | `add`ing each previous top to a new composite builds a successor chain from the leaf to the top |
| HandlerChain.FourLevels | python3/behavioral/chain/framework.py:92-102 | a leaf four levels below the root holding the handler gets the root handler's answer |
| Flyweight.ConcreteFlyweight.constructor | structural/flyweight.py:17-19 | a flyweight holds its intrinsic state |
| Flyweight.FlyweightFactory.constructor | structural/flyweight.py:34-35 | a new factory stores nothing |
| Flyweight.FlyweightFactory.GetFlyweight | structural/flyweight.py:37-43 | a stored key gives its flyweight and changes nothing; a new key gets a fresh flyweight holding it, and no other entry changes |
| Flyweight.Requests | structural/flyweight.py:37-43 | after any run of requests the stored keys are exactly those asked for, and equal keys got the same object |
| Flyweight.Client | structural/flyweight.py:57-60 | 'A', 'B', 'C', 'A' leaves three flyweights, and both 'A's are the same one |
| FilterVisitor.Element.constructor | python/behavioral/visitor/example.py:46-55 | an element has its kind |
| FilterVisitor.SelectedExactly | python/behavioral/visitor/example.py:19-38 | a filter keeps only elements of its kind, and keeps every one of them |
| FilterVisitor.SelectedAppend | python/behavioral/visitor/example.py:68-71 | filtering two runs of elements one after the other keeps the insertion order |
| FilterVisitor.SelectedSplit | python/behavioral/visitor/example.py:19-38 | the numeric and the character elements together are all of them |
| FilterVisitor.Visitor.constructor | python/behavioral/visitor/example.py:6-7 | a new visitor's `filtered` list is empty |
| FilterVisitor.Visitor.Visit | python/behavioral/visitor/example.py:19-38 | a visit appends the element when it is of the visitor's kind |
| FilterVisitor.ObjectStructure.constructor | python/behavioral/visitor/example.py:58-61 | a new structure has no elements and no visitor |
| FilterVisitor.ObjectStructure.AddElement | python/behavioral/visitor/example.py:62-64 | `addElement` appends |
| FilterVisitor.ObjectStructure.SetVisitor | python/behavioral/visitor/example.py:65-67 | `setVisitor` sets the visitor and leaves the elements |
| FilterVisitor.ObjectStructure.Filter | python/behavioral/visitor/example.py:68-71 | `filter` appends the selected elements, in insertion order, to what the visitor held before (it is never cleared) and leaves the elements alone. With no visitor it fails |
| FilterVisitor.SelectedCount | python/behavioral/visitor/example.py:75-94 | as many elements are selected as their kind occurs |
| FilterVisitor.FilterTests | python/behavioral/visitor/example.py:75-94 | the tests' structure filters to four numeric and four character elements, each of its kind |

## Left out

- Logging and `print` calls, the `unittest` harnesses and the environment-variable log-level setup are I/O and are not modelled. Their tests are stated as lemmas and methods instead.
- Regular expressions (`re.match`, `re.findall`) are modelled as literal prefix tests and a hand-written scanner, not by a regex engine.
- `DivideExpression` in calc.py uses Python true division, which gives a float: its value is the error `TrueDivision`, and only `+`, `-` and `*` compute.
- In calc.py an unbalanced '(' makes `__parse_operations` loop forever. The model returns `Unbalanced` for that case instead of diverging.
- `int(s, base)` in pipeline.py also accepts signs, underscores and surrounding whitespace. Only an optional base prefix followed by digits is modelled.
- The `pickle` serialisation of the Fibonacci memento is modelled as a snapshot record of the three fields.
- In example.py, 'postorder' names a `PostOrderIterator` class that does not exist there. The model reports it as an undefined class and builds no iterator.
- LinkedList.Iterator.Next: calling `__next__` again after `StopIteration`, which fails on `next(None)` in the source, is excluded by a precondition.
- LinkedList.Node.Add: adding a node that is already in the list (which would make a cycle) is excluded by a precondition.
- HandlerChain.Composite.HandleRequest: its precondition asks for a finite chain of successors that ends in a composite without one. framework.py's `add` can also build a cycle (`c.add(c)`). On a cycle, `handle_request` still answers when some composite on it holds the handler, and otherwise recurses until `RecursionError`. Neither case is modelled.
- Changing a tree while one of its iterators is running is not modelled. `isDone` reads the live `len`; the model keeps the tree fixed during an iteration.
- On an empty tree, the in-order iterator of trees.py pushes `None` onto its stack. The model pushes the empty tree `Leaf` in its place.
- The handler callables of framework.py are arbitrary Python functions. The model shows which composite's handler is chosen and applies it as a function.
  - A `KeyError` raised inside a handler would be caught and forwarded to the successor; that is not modelled.
- `UnsharedConcreteFlyweight` and the printing `operation` of flyweight.py are printing only and are not modelled.
- Python object identity and the `isinstance` assertions are modelled by Dafny's types and object references.
- `NotImplementedError` from the abstract base classes' methods is not modelled. Every modelled class is concrete.
- Morse.KaDeMessage: the 'KA DE RCAVAZ' test is stated word by word, the Morse text as the words' codes joined by three spaces, rather than as one literal string.
- Morse.RoundTrip requires that the message not start with a space. A leading space does not round-trip (Morse.LeadingSpace shows this).
- The shared `Option`/`Result` types in `outcomes.dfy` model Python's `None` and exceptions, not any source file.
