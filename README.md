# rust-list in Dafny

A model of `rust-list`, an immutable singly-linked list of 32-bit integers,
`enum List { Cons(i32, Box<List>), Nil }`. The list is built with `new` or from a
`Vec<i32>`. It supports `append` at the tail, `push` at the head, `concat` (also the
`+` operator), `find`, `len`, linearisation into a `Vec` (`_as_mut_vec` /
`as_mut_vec`), `split` at an index, hand-written structural equality, and a
`Display` rendering. The rendering writes `v,` for every value and ends with `NIL`.

Layout:

- `list.dfy`, module `RustList`: the `List` datatype and every operation.
  - Each Rust function that only recurses over the list is a Dafny function:
    `Append`, `Concat`, `Add`, `Push`, `Find`, `Len`, `Eq`, `Ne`, `Render`.
  - Each Rust function that mutates or loops is a method:
    - `AsMutVecInto` pushes onto a `Vec` object, the model of the
      `&mut Vec<i32>` accumulator.
    - `From` reassigns a local list in a `for` loop.
    - `Split` linearises the list, slices it and rebuilds two lists.
  - Every contract is stated against `Elems(l)`, the values of `l` from head to tail.
  - `OfSeq` is an independent reference construction. It is the inverse of `Elems`.
  - `Fields` is an independent reference for the rendered text: it builds the
    `v,` fields from the last value backwards. `Render` is proved equal to it
    followed by `NIL`.
  - `ParseRendering` reads a rendering back. It is a second partner of `Render`.
- `decimal.dfy`, module `Decimal`: the decimal text of an `i32` as `{}` formats
  it, and `ParseInt`, which reads that text back.

Values have the subset type `i32` (`-2^31 <= x < 2^31`). No arithmetic is done on
them. `len` returns `nat`; Rust returns `isize`.

## Model

| member | source | states |
|---|---|---|
| RustList.New | src/main.rs:14-16 | the new list holds no values |
| RustList.Append | src/main.rs:18-28 | the values of the result are those of `l` followed by `x`: the old values are unchanged and one value is added at the end |
| RustList.Concat | src/main.rs:30-38 | the values of the result are those of `l` followed by those of `l2` |
| RustList.Add | src/main.rs:91-97 | `+` yields the values of the left operand followed by those of the right |
| RustList.Push | src/main.rs:40-47 | the result is a `Cons` whose head is `x` and whose tail is the original list, for `Nil` and `Cons` inputs alike; its values are `[x]` followed by the old ones |
| RustList.Find | src/main.rs:49-54 | true exactly when `x` occurs among the values of `l` |
| RustList.Len | src/main.rs:56-61 | equals the number of values of `l` |
| RustList.ConcatIdentity | src/main.rs:30-38 | `Nil` is both a left and a right identity of `concat` |
| RustList.LenLaws | src/main.rs:18-61 | the length of a concatenation is the sum of the lengths; `append` and `push` add exactly one; `new` has length 0 |
| RustList.FindAppend | src/main.rs:18-54 | after appending `x`, `x` is found, and any other value is found exactly when it was found before |
| RustList.AsMutVecInto | src/main.rs:64-74 | the accumulator afterwards holds its old contents followed by the values of `l` |
| RustList.AsMutVec | src/main.rs:76-80 | the returned vector holds exactly the values of `l`, in order |
| RustList.From | src/main.rs:100-108 | the built list holds exactly the values of `vs`, in order, and it equals the reference construction `OfSeq(vs)`; the loop keeps the invariant that the list holds the first `i` values |
| RustList.OfSeqElems | src/main.rs:100-108 | rebuilding a list from its own values gives back the same list |
| RustList.FromThenAsMutVec | src/main.rs:202-211 | linearising the list built from `vs` gives back `vs` |
| RustList.Split | src/main.rs:82-86 | for `n` at most the length, the left list holds the first `n` values, the right list the rest, and concatenating the two gives back the original list |
| RustList.Eq | src/main.rs:110-116 | two lists are equal exactly when they hold the same values in the same order, which is exactly when they are the same list |
| RustList.Ne | src/main.rs:118-120 | true exactly when the two lists differ |
| RustList.ConsNeverNil | src/main.rs:112-115 | a `Cons` never equals `Nil`, in either order |
| RustList.ElemsInjective | src/main.rs:5-9 | two lists with the same values are the same list |
| RustList.Render | src/main.rs:125-131 | every rendering ends with the terminator `NIL` (the exact text is the next row) |
| RustList.RenderFormat | src/main.rs:125-131 | the rendering is exactly the decimal text of each value followed by a comma, in list order, and then `NIL` |
| RustList.RenderRoundTrip | src/main.rs:125-131 | reading the comma-terminated fields of the rendering back as integers gives the list's values in order |
| RustList.RenderInjective | src/main.rs:125-131 | different lists have different renderings |
| RustList.RenderExamples | src/main.rs:125-131 | `[1,2,3]` renders as `1,2,3,NIL` and `Nil` as `NIL` |
| RustList.TestScenarios | src/main.rs:138-199 | the unit tests' cases for `append`, `+`, `push`, `find` and `len`, with `From` replaced by `OfSeq` |
| Decimal.IntToDecimal | src/main.rs:128 | the text of an integer is a `-` exactly for negative values followed by canonical decimal digits (no leading zero except `0` itself); it reads back as that integer and contains no comma |
| Decimal.NatToDecimal | src/main.rs:128 | a non-empty string of decimal digits, with no leading zero, whose value is `n` |

## Left out

- `main` prints a fixed message, and the commented-out demo after it is dead code. Neither is modelled.
- The `fmt::Formatter` and `write!` plumbing and its `fmt::Result` error path are not modelled. `Render` is a pure string function.
- `#[derive(Debug, Clone)]` is compiler-generated and adds no logic.
- `Box` ownership, moves and the `to_vec` copies in `split` become plain value semantics.
- Stack depth and memory exhaustion on very long lists are environment limits, not behaviour.
- Len: returns an unbounded `nat`. Rust's `isize` result cannot overflow for any list that fits in memory.
- Find: the model's recursion stops at the first matching node, as the source does. A pure model cannot observe that the rest of the list is not visited.
- Split: a call with `n` greater than the length makes `split_at` panic. The model excludes it with a `requires`; it does not model the panic.
- Vec: the model of `Vec<i32>` keeps only its contents, not its capacity or growth.
