# Triangle calculator (trojkaty) — a Dafny model

The calculator takes three side lengths typed into a form. It decides whether
they make a triangle, classifies the triangle as acute (*ostrokątny*), right
(*prostokątny*) or obtuse (*rozwartokątny*), and shows its area by Heron's
formula. Everything lives in `main.js`. This project models its computational
core and the way it fills the result area:

- `wrappers.dfy` (module `Wrappers`): the `Option` type that stands for the
  source's `null` returns.
- `geometry.dfy` (module `Geometry`): `check_triangle`, `get_triangle_type`
  and the radicand `s(s-a)(s-b)(s-c)` of `calculate_field`. These are pure
  functions over exact `real` side lengths.
- `collector.dfy` (module `Collector`): `get_geometry_sides`.
  - The input elements are objects of class `InputElement`. The method has no
    `modifies` clause, so Dafny guarantees that it changes no input.
  - It is a loop with early returns, proved against the specification
    function `Collect`.
  - `String.prototype.trim` gets a concrete definition (`Trim`).
  - JavaScript's `Number(...)` is the parameter `parse: string -> Option<real>`,
    where `None` plays the role of NaN.
  - `values.sort((a, b) => a - b)` is the function `SortAscending`.
- `page.dfy` (module `Page`): the display element is the class `Display`, and
  its `children: seq<Node>` field is changed in place.
  - `Clear` is `clear_display`'s loop.
  - `CheckGeometry` is `check_geometry`. It clears the display, then appends
    either one `errmsg` paragraph or the four nodes message, picture,
    message, message.
  - A node carries its kind (paragraph or image), its class name and its
    payload: an image path, or a message tag holding the values the text
    interpolates.

The whole flow is specified by `Decide` (collect, then `Judge`) and `Render`
(the nodes for an outcome). `Display.CheckGeometry` is proved to leave exactly
`Render(Decide(texts))` in the display.

Points where the code's behaviour is easy to misread, and which the model
follows as written:

- `isNaN` (main.js:202) is the only test on a parsed value, so infinite values
  pass it; the model adds no finiteness condition.
- The success nodes are appended as message, image, label, area (main.js:79,
  101, 106, 113), and that is the order modelled.
- The node classes are `errmsg`, `msg` and `triangle-image` (main.js:56, 68,
  77, 93, 104, 111).

## Model

| member | source | states |
|---|---|---|
| Geometry.CheckTriangle | main.js:171-176 | on a triple sorted ascending, true exactly when all three strict triangle inequalities hold; a sorted triple it accepts has every side positive |
| Geometry.CheckTriangleReadsFirstThree | main.js:165-176 | the result depends only on the first three elements |
| Geometry.GetTriangleType | main.js:131-145 | exactly one of the three types: PROSTOKATNY iff a²+b² = c², ROZWARTOKATNY iff a²+b² < c², OSTROKATNY iff a²+b² > c² |
| Geometry.TypeIsLargestAngle | main.js:131-145 | on a possible sorted triangle, testing only the longest side classifies by the largest angle: right iff some angle is right, obtuse iff some angle is obtuse, acute iff neither |
| Geometry.HeronRadicand | main.js:155-163 | the radicand s(s-a)(s-b)(s-c) of `calculate_field`, with s half the perimeter; it only computes, and its contract is carried by HeronPositiveIffValid, HeronRadicandIgnoresOrder and RightTriangleRadicand |
| Geometry.HeronRadicandIgnoresOrder | main.js:155-163 | the radicand is the same for every one of the six orders of the three sides |
| Geometry.HeronPositiveIffValid | main.js:148-163 | on a sorted triple with nonnegative shortest side, the Heron radicand is positive iff `check_triangle` accepts, which is the precondition `calculate_field` documents |
| Geometry.NegativeSideRadicand | main.js:155-176 | the nonnegativity premise is needed: (-1, 2, 2) is rejected yet has a positive radicand |
| Geometry.RightTriangleRadicand | main.js:155-162 | for a right triangle the radicand equals (ab/2)², i.e. Heron agrees with half the product of the legs |
| Geometry.Examples | main.js:131-176 | (3,4,5) is right with radicand 36; (2,2,2) is acute; (1,2,2.5) is obtuse; (6,6,6) has radicand 243; the degenerate (2,3,5) is rejected with radicand 0 |
| Collector.TrimStart | main.js:193 | drops the leading white space of `trim`; it only computes, and TrimStartCutsLeadingBlanks carries its contract |
| Collector.TrimStartCutsLeadingBlanks | main.js:193 | the result is a suffix of the input, everything cut off is white space, and the result does not start with white space |
| Collector.TrimEnd | main.js:193 | drops the trailing white space of `trim`; it only computes, and TrimEndCutsTrailingBlanks carries its contract |
| Collector.TrimEndCutsTrailingBlanks | main.js:193 | the result is a prefix of the input, everything cut off is white space, and the result does not end with white space |
| Collector.Trim | main.js:193 | `String.prototype.trim` over the modelled white-space set; it only computes, and TrimIsInnerSlice and TrimEmptyIffBlank carry its contract |
| Collector.TrimIsInnerSlice | main.js:193 | the trimmed text is a slice of the input; everything cut off is white space; the result neither starts nor ends with white space |
| Collector.TrimEmptyIffBlank | main.js:193 | the trimmed text is empty exactly when the input is all white space |
| Collector.TrimIdempotent | main.js:193 | a general property of `trim`: trimming the trimmed text changes nothing (the calculator itself trims only the raw input text) |
| Collector.SortAscending | main.js:209 | the result is sorted ascending, has the same length and is a permutation (same multiset) of the input |
| Collector.SortedPermutationUnique | main.js:209 | two sorted permutations of the same values are equal, so any sort algorithm with comparator `a - b` gives this result |
| Collector.SortIdempotent | main.js:209 | sorting a sorted sequence returns it unchanged; sorting twice equals sorting once |
| Collector.SortThreeReorders | main.js:209 | sorting three values yields one of their six orderings |
| Collector.ReadSide | main.js:193-204 | one input's number: no number when the trimmed text is empty, otherwise what `Number` gives for the trimmed text; it only computes, and CollectFailsIffUnreadable states its role |
| Collector.Collect | main.js:182-211 | on success, one number per input, in ascending order |
| Collector.CollectFailsIffUnreadable | main.js:193-204 | the collection fails (null) exactly when some input's trimmed text is empty or parses to NaN |
| Collector.CollectSortsParsed | main.js:206-210 | on success, the result is the parsed numbers sorted, a permutation of them |
| Collector.GetGeometrySides | main.js:182-211 | the loop with its early returns computes exactly `Collect` of the inputs' texts |
| Page.Label | main.js:83-90 | the Polish label written for each type; it only computes, and LabelAndImageDetermineType carries its contract |
| Page.ImagePath | main.js:92-100 | the picture shown for each type; it only computes, and LabelAndImageDetermineType carries its contract |
| Page.LabelAndImageDetermineType | main.js:83-100 | the label and the picture are each chosen by the triangle type, and distinct types get distinct labels and distinct pictures |
| Page.Judge | main.js:53-113 | a failed collection gives the not-numbers error; otherwise the outcome cites the first three sorted values; a rejected triple satisfies a+b <= c; an accepted one has 0 < a <= b <= c < a+b, the type `get_triangle_type` gives for the sorted values and their Heron radicand, which is positive |
| Page.Decide | main.js:52-77 | the outcome of a submission: collect the sides, then judge them; it only composes, and DecideIsOrderIndependent, RightExample and RejectedExample carry its contract |
| Page.Render | main.js:53-113 | the nodes appended for an outcome; it only computes, and RenderShape carries its contract |
| Page.RenderShape | main.js:46-114 | a failure leaves exactly one node, an `errmsg` paragraph, saying the sides are not numbers when unreadable and citing the outcome's three sides (the sorted values, by `Judge`) when rejected; success starts with the message citing those three sides; success leaves no `errmsg` node and exactly four nodes `msg`, `triangle-image`, `msg`, `msg`, whose picture and label are those of the outcome's type and whose last message carries its radicand |
| Page.DecideIsOrderIndependent | main.js:52-82 | with three inputs, the submission is accepted iff all inputs are readable and the numbers, in typed order, satisfy the full strict triangle inequality; the type shown is right (obtuse) iff the triangle has a right (obtuse) angle, and the radicand is Heron's for the sides in typed order |
| Page.RightExample | main.js:46-114 | inputs "3", "4", "5" are accepted as a right triangle with radicand 36 (area 6.00) |
| Page.RejectedExample | main.js:65-74 | inputs "1", "1", "5" are rejected, citing the sorted sides 1, 1, 5 |
| Page.Display.RemoveFirstChild | main.js:121 | removes exactly the first child |
| Page.Display.Append | main.js:79 | adds the node after the existing children |
| Page.Display.Clear | main.js:119-123 | the display ends with no children; the loop ends because each pass removes one child |
| Page.Display.CheckGeometry | main.js:46-114 | the display ends holding exactly the nodes `Render` gives for the decision on the inputs' texts: nothing from before the call and nothing after an early return |

## Left out

- DOM lookups and wiring are host-environment I/O and are not modelled: the `document.querySelector` calls, `get_all_sides`, the form-submit listener and the `console.error` branch (main.js:6-40, 221-240).
- `Math.sqrt` and `toFixed(2)` are left out because they are floating-point numerics and string formatting. The area node carries the radicand whose square root would be shown.
- The grammar of JavaScript's `Number(...)` is foreign library code. It is the parameter `parse`. `Infinity` and `-Infinity`, which `Number` can return and `isNaN` lets through, have no `real` counterpart.
- `Trim` strips space, tab, line feed, carriage return, vertical tab, form feed, U+00A0, U+FEFF, U+2028 and U+2029. The other Unicode space separators that JavaScript's `trim` also strips are not included.
- Double-precision rounding in `a + b`, `a ** 2` and the `==` / `<` tests is not modelled. Arithmetic is exact over `real`, so the exact `==` at main.js:138 is true real equality.
- The Polish message texts and their template interpolation are replaced by `Message` tags carrying the interpolated values.
- The engine's sort algorithm is not modelled. `SortAscending` is an insertion sort, and `Collector.SortedPermutationUnique` shows that every sort yields the same result.
- `values.push` and the in-place `values.sort` act on a local array that nothing else can see. They are modelled on a local sequence.
- Geometry.CheckTriangle, Geometry.GetTriangleType and Geometry.HeronRadicand require at least three sides. In JavaScript, fewer would read `undefined`, but the calculator always passes three inputs (main.js:11).
