# Recursive linked list of `u32` values

A model of the enum-based singly-linked list of the repository's
`3_custom_types/enums/Tests_Linked-lists` program. A list is either
`Cons(head, tail)`, a 32-bit unsigned value in front of the rest of the list, or
`Nil`, the end. Four operations are defined on it:

- `new` gives the empty list.
- `prepend` consumes a list and returns it with a new value in front.
- `len` counts the nodes.
- `stringify` renders the list as `"h1, h2, ..., Nil"`.

The program's `main` applies them to the values 1, 2 and 3.

The model is pure, like the source: `List` is a Dafny `datatype` and every
operation is a function of list values. `Elements` is the abstract view of a
list, its values front to back. The operations are specified against it.
`u32` is a `newtype` of `int` restricted to `[0, 2^32)`.

`format!("{}", head)` is modelled by `Decimal.Render`, the canonical base-ten
rendering of a natural number. `Decimal.Parse` is its inverse. `LinkedList.ParseList`
reads a whole rendering back into a list, which shows that `stringify` loses
no information.

Files:

- `Wrappers.dfy`: the `Option` datatype.
- `Decimal.dfy`: decimal rendering and parsing of numbers.
- `LinkedList.dfy`: the list, its operations and their properties, and the `main` sequence.

## Model

| member | source | states |
|---|---|---|
| `LinkedList.New` | 3_custom_types/enums/Tests_Linked-lists/src/main.rs:25-28 | `new` returns a list with no elements, whose length is 0 and whose rendering is `"Nil"` |
| `LinkedList.ElementsInjective` | 3_custom_types/enums/Tests_Linked-lists/src/main.rs:5-20 | two lists with the same values in the same order are the same list, so the element contracts of `New` and `Prepend` fix their results exactly |
| `LinkedList.Prepend` | 3_custom_types/enums/Tests_Linked-lists/src/main.rs:31-36 | the result's elements are the new value followed by all of the old list's elements in their old order, so nothing is lost or reordered |
| `LinkedList.Len` | 3_custom_types/enums/Tests_Linked-lists/src/main.rs:39-58 | `len` equals the number of elements modulo 2^32, and equals the exact count when the list has fewer than 2^32 nodes |
| `LinkedList.LenPrepend` | 3_custom_types/enums/Tests_Linked-lists/src/main.rs:50 | a prepend adds one to `len` in `u32` arithmetic (modulo 2^32), and the result is exactly `1 + len` if and only if the old length is below the largest `u32` |
| `LinkedList.PrependAll` | 3_custom_types/enums/Tests_Linked-lists/src/main.rs:77-82 | rebinding a list to successive prepends of `xs` lengthens it by exactly as many nodes as `xs` holds; the order of the values is stated by `PrependAllElements` |
| `LinkedList.PrependAllElements` | 3_custom_types/enums/Tests_Linked-lists/src/main.rs:77-82 | rebinding a list to successive prepends of `xs` puts the reverse of `xs` in front of the old elements, so the last value prepended comes first |
| `LinkedList.LenAfterPrepends` | 3_custom_types/enums/Tests_Linked-lists/src/main.rs:77-85 | a list built from `new()` by `n` prepends, for `n` below 2^32, has length `n` and holds the prepended values last-first |
| `LinkedList.Stringify` | 3_custom_types/enums/Tests_Linked-lists/src/main.rs:61-72 | `stringify` renders `"Nil"` exactly for the empty list; its other properties are stated by `StringifyEndsWithNil`, `StringifySeparators` and `ParseStringify` |
| `LinkedList.StringifyEndsWithNil` | 3_custom_types/enums/Tests_Linked-lists/src/main.rs:61-72 | every rendering ends with the terminal `"Nil"` |
| `LinkedList.StringifySeparators` | 3_custom_types/enums/Tests_Linked-lists/src/main.rs:63-66 | a rendering contains exactly one `", "` per node |
| `LinkedList.ParseStringify` | 3_custom_types/enums/Tests_Linked-lists/src/main.rs:61-72 | reading a rendering back yields the list that was rendered |
| `LinkedList.StringifyParse` | 3_custom_types/enums/Tests_Linked-lists/src/main.rs:61-72 | every string the parser accepts is exactly the rendering of the list it yields, so together with `ParseStringify` the parser defines the rendered format completely |
| `LinkedList.StringifyInjective` | 3_custom_types/enums/Tests_Linked-lists/src/main.rs:61-72 | two lists with the same rendering are the same list |
| `LinkedList.SinglePrepend` | 3_custom_types/enums/Tests_Linked-lists/src/main.rs:63-70 | one prepend of `e` onto `new()` has length 1 and renders as the decimal of `e` then `", Nil"`; for 5 that is `"5, Nil"` |
| `LinkedList.MainExample` | 3_custom_types/enums/Tests_Linked-lists/src/main.rs:75-87 | prepending 1, 2 and 3 onto `new()` gives length 3 and the rendering `"3, 2, 1, Nil"` |
| `Decimal.Render` | 3_custom_types/enums/Tests_Linked-lists/src/main.rs:66 | the rendering of a number is a non-empty digit string with no leading zero (it starts with `0` only for zero) and holds no comma or space |
| `Decimal.ParseRender` | 3_custom_types/enums/Tests_Linked-lists/src/main.rs:66 | parsing the rendering of `n` gives `n` |
| `Decimal.RenderParse` | 3_custom_types/enums/Tests_Linked-lists/src/main.rs:66 | a canonical digit string is the rendering of the number it parses to |
| `Decimal.RenderInjective` | 3_custom_types/enums/Tests_Linked-lists/src/main.rs:66 | distinct numbers render differently |

## Left out

- `LinkedList.Len`: models the `u32` addition `1 + tail.len()` as an optimised build performs it, wrapping modulo 2^32. A debug build would panic on that overflow instead, but there the recursive `len` exhausts the stack long before a list reaches 2^32 nodes, so the panic is not observed; an optimised build wraps, as modelled.
- The `println!` calls in `main` (lines 85-86) are console output. `LinkedList.MainExample` states the values they print.
- `Box` allocation, moves and the recursive drop of a list have no observable functional behaviour. `prepend` is a pure function returning a new value, and a consumed binding is simply no longer used.
- The stack depth of the recursion in `len` and `stringify` is a resource limit, not functional behaviour.
- `len` and `stringify` borrow the list read-only. That calling either twice gives the same result and leaves the list unchanged holds by construction: both are functions of an immutable value. No separate lemma states it.
- The other programs of the repository (primitive types, constants, structs, enum and `use` demonstrations, variable bindings) are language-feature demonstrations and are not part of this model. That includes the floating-point `rect_area` and `square` in `3_custom_types/structs/src/main.rs`.
