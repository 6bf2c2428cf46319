# A byte-exact string type and its allocation tracker, in Dafny

This project models a small C++ `String` value type and proves properties
of the model. The type holds an exact byte count and owns a heap buffer
one byte longer than that, whose last byte is a nul terminator. Zero bytes
may appear before the terminator; the stored count, not a scan, says where
the contents end. The header include/String.h declares four
constructors, the copy constructor, `data()` and `length()`. It also
documents the destructor, the move constructor, copy-assignment and
move-assignment, but their declarations are commented out (lines 29, 46,
54 and 64); the model follows those doc comments. Beside the type are the
free operations `substring` (two forms), `operator+` and `operator<<`,
written against the public interface only.

The project also models the allocation tracker of the test program. It
replaces `operator new` and `operator delete`, records each allocation in
a fixed table of 1024 entries while the table has room, keeps a running
total of outstanding bytes, can be told to fail the next allocation, and
flags bad frees. After each test it checks for leaks.

Modules, one per source component:

- `CStrings` (`cstrings.dfy`): the `byte` type, the first-nul index
  `FirstNul`, the terminator scan `length_from_pointer`, and the byte-copy
  loop shared by the constructors and copy-assignment.
- `Strings` (`string.dfy`): class `String`.
  - Fields: `length`, `buf: array<byte>`, and a ghost `contents`.
  - Invariant `Valid()`: `buf.Length == length + 1`, `buf[length] == 0`,
    and `contents == buf[..length]`.
  - Buffer identity is Dafny array identity. "Owns its own buffer" is
    `fresh(buf)`. "Steals the buffer" is `buf == old(other.buf)`.
  - Allocation failure is an explicit input `allocFails` of the operations
    whose allocation the tests force to fail.
- `StringOps` (`string_ops.dfy`): the free operations as functions on
  contents, their algebra, and methods that build the resulting `String`
  through the public interface.
- `StringTests` (`string_tests.dfy`): the test bodies as client methods,
  the worked examples, and the two counterexamples listed under Findings.
- `AllocationTracker` (`allocation_tracker.dfy`): the tracker state as a
  value (`Table`), with `operator new`, `DoDelete` and `RunTest`'s check as
  functions. Beside it is class `Tracker`, which updates a 1024-entry
  `array` in place and is proved equal to those functions step by step.
  Addresses are abstract values supplied by the caller.

Design choices where the source leaves room:

- The move constructor and move-assignment give the moved-from string a
  fresh one-byte empty buffer. That allocation happens before anything is
  taken, so when it fails neither string changes. This is the case the
  move tests with a forced failure exercise.
- Self copy-assignment and self move-assignment are detected by identity.
  They change nothing and do not allocate.
- Copy-assignment allocates and fills the new buffer before it gives up
  the old one, so a failure leaves the destination untouched.
- `substring(s, start)` requires `start <= s.length()`, and
  `substring(s, start, length)` requires the range to lie inside `s`. These
  are the header's caller obligations (include/String.h:91-95). The model
  does not return an empty string for an out-of-range start.
- `src/String.cpp` is an unfinished draft. The model follows the header's
  doc comments and the tests wherever the draft differs. The differences
  are these:
  - `String()` stores its new buffer in a local array and never sets the
    fields (src/String.cpp:6);
  - the other constructors, the copy constructor and copy-assignment
    write `STRING[...]` as bare index expressions instead of allocating
    (lines 11, 30, 54, 79); `STRING` is the draft member `char* STRING =
    &BUFFER;` declared in the draft header src/String.h:82, which
    src/String.cpp:1 includes;
  - the nul-terminated constructor builds a temporary `String(c_str,
    length)` instead of delegating (line 23);
  - the fixed-size constructor (29-35), the copy constructor (51-59) and
    copy-assignment (77-84) never write the terminator;
  - the copy constructor starts with `~STRING()` (line 52) before any
    buffer of its own exists;
  - copy-assignment gives up its old buffer with `~STRING` (line 78)
    before it allocates and fills the new one (79-83); the model allocates
    and fills first, so that a failed allocation leaves the destination
    unchanged, as src/Test.cpp:277-295 requires;
  - copy-assignment has no `return` statement (77-84);
  - the move constructor is declared without a body (line 69);
  - move-assignment, `operator<<`, both `substring`s and `operator+` throw
    "Not implemented." (94-96, 128-146);
  - `length()` and `length_from_pointer` compute the wrong length; see
    Findings.
- The test named `MoveAssignSelf` (src/Test.cpp:306-312) assigns `foo = x`
  with `x` an lvalue reference, which is a copy-assignment.
  `StringTests.MoveAssignSelf` checks that as written, and checks a real
  self move-assignment too.

## Model

| member | source | states |
|---|---|---|
| `CStrings.FirstNul` | src/String.cpp:118-126 | the index of the first nul: it holds a nul and no byte before it does |
| `CStrings.FirstNulOfTerminated` | include/String.h:16-18 | a nul-free prefix followed by a terminator measures exactly the prefix length, e.g. 6 for "Hello!" |
| `CStrings.LengthFromPointer` | src/String.cpp:118-126 | the scan loop returns the index of the first nul, which lies inside the buffer, with no nul before it; the loop never reads past that nul |
| `CStrings.LengthFromPointerAsWritten` | src/String.cpp:118-126 | the draft's loop, with its counter starting at 1, returns one more than the first-nul index |
| `CStrings.AllocCopy` | src/String.cpp:29-35 | a fresh buffer of n+1 bytes whose first n bytes are the source bytes in order, zeros included, and whose last byte is nul |
| `Strings.String.Empty` | include/String.h:9-11 | length 0, a fresh one-byte buffer, and that byte is the terminator |
| `Strings.String.Repeated` | src/String.cpp:10-16 | length `size`; every byte `0..size-1` is `c` and the byte at `size` is nul; the buffer is fresh |
| `Strings.String.FromTerminated` | src/String.cpp:20-24 | length is the index of the input's first nul; the contents are the bytes before it, copied into a fresh buffer distinct from the input |
| `Strings.String.FromBytes` | src/String.cpp:29-35 | exactly `size` bytes from `data + offset` are copied in order, zeros included, into a fresh buffer |
| `Strings.String.Copy` | src/String.cpp:51-59 | same length and contents as `other`, in a fresh buffer; `other` and its buffer are unchanged |
| `Strings.String.Move` | include/String.h:38-46 | on success the new string owns `other`'s former buffer and contents, and `other` is valid and empty with a fresh buffer; on a forced allocation failure no string is made and `other` is unchanged and valid |
| `Strings.String.CopyAssign` | src/String.cpp:77-84 | succeeds unless an allocation is needed and fails; on success the destination has `other`'s contents in a fresh buffer; on failure, and for self-assignment, the destination is unchanged, buffer identity included; `other` is never changed |
| `Strings.String.MoveAssign` | include/String.h:56-64 | on success the destination owns `other`'s former buffer and contents, and `other` is valid and empty; on failure, and for self-assignment, both strings are unchanged |
| `Strings.String.Data` | src/String.cpp:103-109 | the buffer has `length()+1` bytes: the first `length()` are the contents and the last is nul; one buffer serves the const and non-const overloads |
| `Strings.String.Length` | include/String.h:74-77 | the number of content bytes, which is one less than the size of `data()` |
| `Strings.String.LengthAsWritten` | src/String.cpp:114-116 | the draft's `length()` ignores the stored count and reports the first-nul index plus one |
| `Strings.String.Store` | include/String.h:66-72 | a write through the non-const `data()` at a content position changes the contents at that index only, and keeps the buffer and the invariant |
| `StringOps.Substring` | include/String.h:91-92 | for `start <= |s|`: length `|s| - start`, and byte i is `s[start + i]` |
| `StringOps.SubstringRange` | include/String.h:94-95 | for a range inside `s`: exactly `length` bytes, byte i being `s[start + i]` |
| `StringOps.Concat` | include/String.h:97-98 | length `|a| + |b|`: the bytes of `a`, then the bytes of `b` |
| `StringOps.Output` | include/String.h:88-89 | the stream receives exactly the string's bytes after what it already held, zeros included and no terminator |
| `StringOps.SubstringIsRangeToEnd` | include/String.h:91-95 | the one-argument substring equals the two-argument one that runs to the end |
| `StringOps.SplitThenConcat` | include/String.h:91-98 | cutting at any `k <= |s|` and concatenating the two parts gives back `s` |
| `StringOps.ConcatThenSplit` | include/String.h:91-98 | the substrings at the seam of `a + b` give back `a` and `b` |
| `StringOps.OutputTwice` | include/String.h:88-89 | writing `a` then `b` to a stream writes `a + b` |
| `StringOps.SubstringOfSubstring` | include/String.h:91-95 | a substring of a substring is the corresponding substring of the original |
| `StringOps.SubstringOf` | include/String.h:91-92 | a new string with a fresh buffer holding `Substring(s, start)`; `s` is unchanged |
| `StringOps.SubstringRangeOf` | include/String.h:94-95 | a new string with a fresh buffer holding `SubstringRange(s, start, length)`; `s` is unchanged |
| `StringOps.Plus` | include/String.h:97-98 | a new string with a fresh buffer holding `Concat(a, b)`, built by writing through `data()`; `a` and `b` are unchanged |
| `StringTests.Literal` | src/Test.cpp:216 | a C string literal: a fresh buffer holding the characters and then a nul, whose first nul is at the literal's length |
| `StringTests.FromLiteral` | include/String.h:16-18 | `String{"..."}`: a valid string with a fresh buffer whose contents are the literal's characters |
| `StringTests.EmptyString` | src/Test.cpp:202-206 | the empty string has length 0 and its first byte is nul |
| `StringTests.FilledString` | src/Test.cpp:208-213 | `String{'a', 3}` has length 3, reads "aaa", and byte 3 is nul |
| `StringTests.NulTerminatedString` | src/Test.cpp:215-220 | the string built from "Hello, World!" reads the same and has a buffer other than the input |
| `StringTests.StringCopy` | src/Test.cpp:222-229 | after a copy both strings read "foo" and their buffers differ |
| `StringTests.StringMove` | src/Test.cpp:231-237 | the moved-to string has the source's buffer and reads "foo" |
| `StringTests.StringMoveWithFailedAllocation` | src/Test.cpp:239-257 | with the allocation forced to fail the move throws, and the source still reads "foo" |
| `StringTests.CopyAssign` | src/Test.cpp:259-267 | after `bar = foo` both read "foo" and their buffers differ |
| `StringTests.CopyAssignSelf` | src/Test.cpp:269-275 | self copy-assignment leaves "foo", even when an allocation would fail |
| `StringTests.CopyAssignWithFailedAllocation` | src/Test.cpp:277-295 | with the allocation forced to fail the copy-assignment throws and the destination keeps its buffer |
| `StringTests.MoveAssign` | src/Test.cpp:297-304 | after `bar = std::move(foo)`, `bar` has `foo`'s buffer and reads "foo" |
| `StringTests.MoveAssignSelf` | src/Test.cpp:306-312 | the test's `foo = x` (a copy-assignment) leaves "foo", and so does a real self move-assignment |
| `StringTests.MoveAssignWithFailedAllocation` | src/Test.cpp:314-344 | with the allocation forced to fail the move-assignment throws and both strings keep their buffers |
| `StringTests.StringsWithZeros` | src/Test.cpp:373-376 | `String('\0', 3)` has length 3 |
| `StringTests.OutputTest` | src/Test.cpp:378-391 | writing a string to an empty stream writes exactly its bytes, for "Hello, World!" and for "Hello\0World" with its zero |
| `StringTests.BasicSubstring` | src/Test.cpp:393-397 | the string built by `substring(foo, 19)` reads "Joe is awesome." |
| `StringTests.DualSubstring` | src/Test.cpp:399-403 | the string built by `substring(foo, 27, 16)` reads "C++ is fantastic" |
| `StringTests.SubstringWithZeros` | src/Test.cpp:405-408 | the substring from 5 of twenty zeros has length 15 |
| `StringTests.ConcatTest` | src/Test.cpp:410-414 | the string built by `hello + world` reads "Hello, World!" |
| `StringTests.ConcatWithZeros` | src/Test.cpp:416-418 | five zeros plus five zeros has length 10 |
| `StringTests.BasicSubstringExample` | src/Test.cpp:393-397 | the substring from 19 of "Nobody thinks that Joe is awesome." is "Joe is awesome." |
| `StringTests.DualSubstringExample` | src/Test.cpp:399-403 | substring(…, 27, 16) of the sentence is "C++ is fantastic" |
| `StringTests.ConcatExample` | src/Test.cpp:410-414 | "Hello, " + "World!" is "Hello, World!" |
| `StringTests.LengthFromPointerCounterexample` | src/String.cpp:111-126 | on "Hello!" the draft's scan reports 7, and the corrected scan reports the documented 6 |
| `StringTests.LengthOfZerosCounterexample` | src/Test.cpp:373-376 | on `String('\0', 3)` the draft's `length()` reports 1, and the stored count reports the expected 3 |
| `AllocationTracker.Find` | src/Test.cpp:158-160 | `find_if`: the first index whose address is `p`, or the table size when there is none |
| `AllocationTracker.NewSpec` | src/Test.cpp:146-169 | a forced failure clears the flag, throws and records nothing; otherwise `size` is added to the total and the call succeeds exactly when `p` has an entry or the table has room; when full with no match it throws with the total already raised and the table unchanged; the table never exceeds 1024 entries |
| `AllocationTracker.DeleteSpec` | src/Test.cpp:171-197 | an unknown address is flagged "not allocated" and changes nothing else; a good free takes the entry's size off the total and off the recorded-active bytes; the invariants are kept |
| `AllocationTracker.NewRecords` | src/Test.cpp:153-167 | after a successful `new`, the entry for `p` is active with the new size, overwriting an old one, and every other address's entry is unchanged |
| `AllocationTracker.DeleteFlagsBadFree` | src/Test.cpp:175-193 | "not allocated", "already freed" and "wrong size" (the last only when sizes are checked) are flagged as such, and every such free, a repeated one included, leaves the table, the total and the forced-failure flag unchanged |
| `AllocationTracker.DeleteMarksFreed` | src/Test.cpp:194-195 | a good free marks the entry for `p` freed and leaves every other address's entry unchanged |
| `AllocationTracker.NewThenSizedDelete` | src/Test.cpp:146-200 | allocating a fresh address and then freeing it with its size returns the total and the recorded-active bytes to where they were, with no failure flagged |
| `AllocationTracker.DoubleFree` | src/Test.cpp:181-186 | freeing the same address twice flags the second free as "already freed" |
| `AllocationTracker.NewKeepsGap` | src/Test.cpp:157-167 | for an address `malloc` may return, `new` changes the total by exactly as much as the recorded-active bytes |
| `AllocationTracker.DeleteKeepsGap` | src/Test.cpp:171-197 | every `DoDelete`, good or bad, changes the total by exactly as much as the recorded-active bytes |
| `AllocationTracker.Apply` | src/Test.cpp:199-200 | unsized `delete` is `DoDelete(p, 0, false)` and sized `delete` is `DoDelete(p, s, true)`; every step keeps the table invariants |
| `AllocationTracker.Run` | src/Test.cpp:439 | a test body's effect is its steps applied in order, and the invariants hold after it |
| `AllocationTracker.RunKeepsGap` | src/Test.cpp:438-440 | over any body whose allocations `malloc` could have returned, the total moves exactly as the recorded-active bytes do |
| `AllocationTracker.Judge` | src/Test.cpp:441-448 | the test passes exactly when no bad free was flagged and the total equals its value before the body; a flagged bad free is reported first; otherwise a changed total is reported as a leak from the old total to the new one |
| `AllocationTracker.Reset` | src/Test.cpp:435-436 | before the body, the forced failure and the flag are cleared and the table and total are kept |
| `AllocationTracker.LeakCheck` | src/Test.cpp:434-449 | the leak check passes after a well-behaved body exactly when no bad free was flagged and the bytes recorded as active add up to what they did before the body; which blocks are active may differ, so freeing an older block and leaking a new one of the same size passes, as in the source |
| `AllocationTracker.Tracker.constructor` | src/Test.cpp:134-138 | at start the table is empty, nothing is outstanding, and no failure is forced or flagged |
| `AllocationTracker.Tracker.FindIndex` | src/Test.cpp:158-160 | the loop over the used entries returns `Find` of the table |
| `AllocationTracker.Tracker.New` | src/Test.cpp:146-169 | the in-place update of the table, the count, the total and the flag is exactly `NewSpec`, and the invariants are kept |
| `AllocationTracker.Tracker.DoDelete` | src/Test.cpp:171-197 | the in-place update is exactly `DeleteSpec`, and the invariants are kept |
| `AllocationTracker.Tracker.Perform` | src/Test.cpp:199-200 | one step of a test body on the tracker is exactly `Apply` |
| `AllocationTracker.Tracker.RunTest` | src/Test.cpp:434-449 | reset, then the body, then the verdict: the final state is `Run` of the reset state, and the verdict is `Judge` of the total noted before the body |

## Left out

- Destruction: Dafny arrays are garbage-collected, so the destructor (src/String.cpp:41-44) is not modelled. Strings.String.CopyAssign and Strings.String.MoveAssign therefore do not state the "no memory leaks" promise of include/String.h:49 and 58: the buffer they give up is not shown to be released. A buffer is released once no string owns it. The move and assignment contracts say which buffer each string owns afterwards. Exactly-once release and leak accounting are modelled on the tracker, not linked to the string operations.
- Strings.String.Empty, Strings.String.Repeated, Strings.String.FromTerminated, Strings.String.FromBytes and Strings.String.Copy always succeed. A failed C++ construction leaves no object, so there is no state to keep. Strings.String.Move, Strings.String.CopyAssign and Strings.String.MoveAssign take the failure as an input.
- StringOps.SubstringOf, StringOps.SubstringRangeOf and StringOps.Plus: allocation failure is not modelled for them (their construction always succeeds).
- The one-owner-per-buffer rule is not stated as a global invariant over all strings. Each operation's `fresh` and identity clauses show that it hands out only fresh buffers or moved ones. Strings.String.Adopt, the constructor that takes over a given buffer, exists only as the helper of Strings.String.Move. Called anywhere else it would give a buffer a second owner, and the model does not forbid that.
- Writes through the non-const `data()` are modelled only at content positions (Strings.String.Store). Writing the terminator would break the terminator invariant.
- The const and non-const `data()` overloads differ only in C++ constness, so one `Data` function stands for both. The compile-time tests `ConstAccess` and `MutableData` (src/Test.cpp:346-371) are not modelled.
- Integer widths: sizes and lengths are unbounded `nat`. The wrap-around of `size + 1` for an `unsigned long long` size and of the `int` loop counters is not modelled. `total_size` does not wrap as `size_t` would. The model proves it never goes below zero.
- Stream mechanics of `operator<<`: the output is the byte sequence appended to the stream's bytes.
- `std::malloc` and the `'!'`/`'?'` fill patterns (src/Test.cpp:151-152, 196). Addresses are caller-supplied values.
- AllocationTracker.NewKeepsGap, AllocationTracker.RunKeepsGap and AllocationTracker.LeakCheck hold only for allocations that satisfy `FreshAllocation`. It assumes two things. First, `malloc` never returns an address that is still active. Second, no `new` happens while the table is full and has no entry for the address. On that path the source adds the size to `total_size` and then throws (src/Test.cpp:157, 163-164), so the total grows with no entry to match. The model does not claim the gap invariant or the leak-check equivalence for that path.
- A `bad_alloc` that escapes a test body (RunTest's "Unhandled exception" branch): in the model every step of a body completes, as the tests that force failures catch them.
- The test harness plumbing: the `TEST` registry, the `ASSERT`/`ASSERT_EQ` macros, `Dump`, the colours, the console output of `RunTest`, and `main`.
- src/String.h is a superseded draft header and is not part of this model; only its member `STRING` is named above, to explain the draft's index expressions.

## Findings

| source | as written | input that shows it | evidently intended | confidence | as-written member | corrected member |
|---|---|---|---|---|---|---|
| src/String.cpp:118-126 | `length_from_pointer` starts its counter at 1 | the nul-terminated buffer "Hello!" gives 7 | start at 0, giving 6 as the doc at src/String.cpp:111-113 says | high; not executed | `CStrings.LengthFromPointerAsWritten` (shown by `StringTests.LengthFromPointerCounterexample`) | `CStrings.LengthFromPointer` |
| src/String.cpp:114-116 | `length()` scans the buffer for a nul instead of returning the stored count | `String('\0', 3)` gives 1 (0 once the counter is fixed) | return the stored count, 3, as src/Test.cpp:373-376 expects | high; not executed | `Strings.String.LengthAsWritten` (shown by `StringTests.LengthOfZerosCounterexample`) | `Strings.String.Length` |
