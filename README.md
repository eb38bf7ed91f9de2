# Gold re-pricing action, modelled in Dafny

The app re-prices a jewellery store's gold products whenever a new gold rate
is stored. Its server action (`action` in `app/routes/app.apply.jsx`) works
in these steps:

- It reads the stored rate record. When no record is stored, it answers with
  status 400 before anything else happens.
- It fetches the products tagged `Gold_22K` or `Gold_18K` page by page, 250
  products to a page. It follows `endCursor` while `hasNextPage` is true.
- For each product, it picks a rate from the tags: 22K wins over 18K.
- It reads `gold_weight`, `making_charges` and `stone_price` from the
  product's metafields, using `parseFloat(value) || 0`.
- It computes `base = rate * weight`, a making amount on base plus stone,
  and a fixed 3% GST.
- It rounds the total with `Math.round` and writes that price to the
  product's first variant.
- It counts the writes that report no `userErrors`. A failed write is logged
  and skipped.
- A page response without `data.products` aborts the run with an error.

The model has five modules, one per part of that action:

- `Wrappers` (wrappers.dfy): `Option`, standing for JavaScript's `null`.
- `NumberParse` (number_parse.dfy): `parseFloat(value) || 0` on metafield text.
- `Pricing` (pricing.dfy): the rate record, tag-to-rate selection, the price
  formula and `Math.round`, with exact real arithmetic.
- `Catalog` (catalog.dfy): products, metafields and variants as values.
  `ExtractMetafields` is the `forEach` loop, written as a method.
  `PlannedWrite` is the write a product leads to, or its skip.
  `PriceProduct` is the per-product step of the loop.
- `Batch` (batch.dfy): the remote responses, given as inputs.
  `RunFrom` and `Apply` specify a whole run. `Action` is the imperative
  `while (hasNextPage)` loop, and `ProcessPage` is the `for` loop over one
  page. Both are proved equal to the specification.

The remote API is represented by its responses:

- The i-th element of `pages` answers the i-th page request. It holds
  products (with `endCursor` and `hasNextPage`), or it lacks
  `data.products`, or the request threw.
- Every product edge carries the outcome its price write would get:
  a response with or without `data` (with its `userErrors`), or an
  exception.
- `Action` returns the cursors it requested pages with, the writes it
  issued (each with its outcome), its answer and the updated-products
  counter. The source computes that counter but never returns it.

Notes on what the code does, which the model follows:

- Purity tags are matched by the exact spellings `Gold_22K`/`gold_22k` and
  `Gold_18K`/`gold_18k`. They are not matched case-insensitively.
- There is no run summary with an error list. The answer is only success,
  `{ error: message }`, or status 400.
- An aborted run keeps the writes it already made, but its answer carries
  no partial summary.
- Every request and write is awaited in turn. Nothing is pipelined.

## Model

| member | source | states |
|---|---|---|
| `NumberParse.ParseFloat` | app/routes/app.apply.jsx:91 | `parseFloat` on plain decimal text: leading white space and one sign are skipped, the longest `digits[.digits]` or `.digits` prefix is read, and text with no such prefix gives NaN (`None`); the lemmas below state each of these |
| `NumberParse.SpaceSkipped` | app/routes/app.apply.jsx:91 | a leading white-space character never changes what is read |
| `NumberParse.PlusSkipped` | app/routes/app.apply.jsx:91 | a plus sign before anything but white space or another sign is skipped ("+5" reads as 5) |
| `NumberParse.MinusSign` | app/routes/app.apply.jsx:91 | a minus sign before anything but white space or another sign negates what follows: "-.5" reads as -0.5, and "-g5" stays NaN |
| `NumberParse.MinusNegates` | app/routes/app.apply.jsx:91 | a minus sign before a digit always gives a number, the negation of the one that follows |
| `NumberParse.LeadingPoint` | app/routes/app.apply.jsx:91 | a leading '.' with k digits after it reads as those digits' fraction (".5" is 0.5), and as NaN when k is 0 ("." and ".g") |
| `NumberParse.TrailingIgnored` | app/routes/app.apply.jsx:91 | integer digits followed by anything other than a digit or '.' (as in "10%" or "5 g") read as the integer alone |
| `NumberParse.DecimalTrailingIgnored` | app/routes/app.apply.jsx:91 | `digits.digits` followed by anything other than a digit (as in "5.2 g") reads as the decimal alone |
| `NumberParse.NoPrefixIsNaN` | app/routes/app.apply.jsx:91 | text whose first character is not white space, a sign, a digit or '.' (as in "g5") is NaN and counts as 0, whatever follows |
| `NumberParse.NumberOr0` | app/routes/app.apply.jsx:91 | reading a metafield value with a fallback to 0: `null` and the empty string read as 0 |
| `NumberParse.ParseDigits` | app/routes/app.apply.jsx:91 | a non-empty run of digits is read as exactly the integer it spells |
| `NumberParse.ParseDecimal` | app/routes/app.apply.jsx:91 | `digits.digits` is read as exactly the decimal number it spells |
| `NumberParse.NoDigitIsNaN` | app/routes/app.apply.jsx:91-98 | text with no digit at all parses to NaN, so the metafield counts as 0 |
| `NumberParse.UnsignedIsNonNegative` | app/routes/app.apply.jsx:91 | text without a minus sign never yields a negative quantity |
| `NumberParse.ReadsAsInteger` | app/routes/app.apply.jsx:91 | a metafield value made of digits contributes the integer it spells |
| `Pricing.SelectRate` | app/routes/app.apply.jsx:74-81 | a rate is chosen exactly when a 22K or 18K tag is present, and it is one of the two stored rates |
| `Pricing.BothPuritiesTake22K` | app/routes/app.apply.jsx:75-76 | a product tagged both 22K and 18K gets the 22K rate |
| `Pricing.Only18KTakes18K` | app/routes/app.apply.jsx:77-78 | a product tagged 18K and not 22K gets the 18K rate |
| `Pricing.OtherSpellingsSelectNothing` | app/routes/app.apply.jsx:75-81 | tags are compared by exact spelling: `GOLD_22K`, `Gold_22k` and `GOLD_18K` select no rate |
| `Pricing.RoundHalfUp` | app/routes/app.apply.jsx:121-123 | `Math.round` gives an integer n with n - 1/2 <= x < n + 1/2 |
| `Pricing.RoundHalfUpUnique` | app/routes/app.apply.jsx:121-123 | the rounding is the only integer n with n - 1/2 <= x < n + 1/2; a tie goes to the upper integer |
| `Pricing.TiesRoundUp` | app/routes/app.apply.jsx:121-123 | an exact `k + 0.5` rounds to `k + 1` |
| `Pricing.RoundHalfUpMonotone` | app/routes/app.apply.jsx:121-123 | rounding preserves order |
| `Pricing.PreRoundTotal` | app/routes/app.apply.jsx:116-122 | the total before rounding, computed in the source's order (gold value, making amount on stone plus gold, 3% GST on all three); with no making charge and no stone it is the gold value plus 3% |
| `Pricing.NewPrice` | app/routes/app.apply.jsx:113-123 | the written price is within half a unit of the pre-rounding total |
| `Pricing.TotalClosedForm` | app/routes/app.apply.jsx:113-123 | the total equals `(rate*weight + stone) * (1 + making/100) * 103/100` |
| `Pricing.WorkedExample` | app/routes/app.apply.jsx:113-123 | rate 6000, weight 5, making 10, stone 200 give 34216.6 and the price 34217 |
| `Pricing.PriceNonNegative` | app/routes/app.apply.jsx:113-123 | non-negative rate, weight, making charge and stone price give a non-negative price |
| `Pricing.PriceMonotoneInRate` | app/routes/app.apply.jsx:113-123 | with non-negative weight and making charge above -100%, a higher rate never gives a lower price |
| `Catalog.FieldValue` | app/routes/app.apply.jsx:88-101 | the number a key receives when the metafields are read front to back, each occurrence overwriting the last; its properties are the two lemmas below |
| `Catalog.LastOccurrenceWins` | app/routes/app.apply.jsx:88-101 | when a key repeats among the metafields, its last occurrence decides the value |
| `Catalog.AbsentKeyIsZero` | app/routes/app.apply.jsx:84-101 | a key that is missing from the metafields reads as 0 |
| `Catalog.ZeroTextLikeAbsent` | app/routes/app.apply.jsx:84-101 | a missing metafield and one valued "0" give the same number |
| `Catalog.StoneValue` | app/routes/app.apply.jsx:94-98 | the stone-price branch's own test for `null` and "" reads values exactly as the other keys do |
| `Catalog.ExtractMetafields` | app/routes/app.apply.jsx:83-101 | the `forEach` leaves each of the three variables holding the value of its key's last occurrence, or 0 |
| `Catalog.DigitFieldValue` | app/routes/app.apply.jsx:88-101 | the last metafield for a key, valued with a digit string, gives the integer it spells |
| `Catalog.VariantTarget` | app/routes/app.apply.jsx:103-110 | the write target is the first variant's id, and there is none when the product has no variant or that id is empty |
| `Catalog.PlannedWrite` | app/routes/app.apply.jsx:73-123 | the write a product leads to, or its skip; a write always targets the product itself and its first variant |
| `Catalog.PlannedWriteCharacterised` | app/routes/app.apply.jsx:73-123 | a product is written iff it has a purity tag and a variant, to its id and first variant, at the formula's price for the selected rate |
| `Catalog.IgnoresCurrentPrice` | app/routes/app.apply.jsx:113-123 | the new price does not depend on the variant's current price or title, so a re-run writes the same prices |
| `Catalog.WorkedProduct` | app/routes/app.apply.jsx:73-123 | a `Gold_22K` product whose metafields spell 5, 10 and 200 is written to its first variant at 34217 when the 22K rate is 6000 |
| `Catalog.PriceProduct` | app/routes/app.apply.jsx:71-123 | the per-product step: skip, or the write request of `PlannedWrite` |
| `Batch.FirstFinal` | app/routes/app.apply.jsx:23-185 | the last page requested is the first page with no next page or no usable data |
| `Batch.PageAttempts` | app/routes/app.apply.jsx:69-173 | the writes a page's products lead to, in page order, each with its outcome; never more writes than products |
| `Batch.RunFrom` | app/routes/app.apply.jsx:23-185 | the run from one page on: its cursors, its writes and its answer, which is never the no-rates answer |
| `Batch.Apply` | app/routes/app.apply.jsx:9-195 | the whole action; it answers "no rates" exactly when no rate record is stored |
| `Batch.UpdatedCount` | app/routes/app.apply.jsx:156-160 | the counter never exceeds the number of writes issued |
| `Batch.ReplyStatus` | app/routes/app.apply.jsx:11-14 | the reply has status 400 exactly when no rate record is stored |
| `Batch.ReplyError` | app/routes/app.apply.jsx:11-194 | the reply carries an error exactly when the run did not succeed, and "No current rates found." when no record is stored |
| `Batch.RunStep` | app/routes/app.apply.jsx:67-185 | a page with a next page contributes its writes, and then the run continues from the next page with that page's `endCursor` |
| `Batch.RunCursors` | app/routes/app.apply.jsx:19-185 | pages are requested up to the first final one: the first with the initial (null) cursor, each later one with the previous page's `endCursor` |
| `Batch.RunResult` | app/routes/app.apply.jsx:63-194 | a run succeeds iff its last page has `data.products`, and otherwise fails with that page's error, whatever the writes did |
| `Batch.PageAttemptsPrefix` | app/routes/app.apply.jsx:70-153 | the writes of a page's first n products are the first writes of the page: later products never change earlier writes |
| `Batch.AtMostOneWritePerProduct` | app/routes/app.apply.jsx:70-153 | each product issues at most one write: none when it is skipped, otherwise its planned write with its own outcome, right after the writes of the products before it |
| `Batch.WritesArePlanned` | app/routes/app.apply.jsx:70-153 | every write a page issues is the planned write of one of its products, and carries that product's outcome |
| `Batch.PageRequestsIgnoreOutcomes` | app/routes/app.apply.jsx:125-172 | the writes a page issues do not depend on how earlier writes went |
| `Batch.RunIgnoresOutcomes` | app/routes/app.apply.jsx:125-185 | failed writes do not stop a run: with the same catalog, the pages requested, the writes issued and the answer are the same |
| `Batch.EmptyCatalog` | app/routes/app.apply.jsx:67-190 | an empty first page with no next page ends the run successfully with nothing written, whatever pages the input lists after it |
| `Batch.ProcessPage` | app/routes/app.apply.jsx:69-173 | the product loop issues exactly the page's planned writes in order, and counts exactly those with `data` and empty `userErrors` |
| `Batch.Action` | app/routes/app.apply.jsx:9-195 | without a rate record, nothing is requested or written and the answer is status 400; otherwise the cursors, writes and answer are those of the specified run, and the counter is the number of accepted writes |

## Left out

- The `Apply` React component and its loading flags (app/routes/app.apply.jsx:197-248) are UI. app/routes/app.settings.jsx, which stores the rate record, is not part of this model. The rate record (`goldRate22K`, `goldRate18K`) is an input.
- `authenticate.admin` is left out, and so is the failure of that call. A failure there would end the run with an error before any page is requested.
- `admin.graphql` and `response.json()` are represented by their responses: a sequence of page responses and a write outcome per product.
- The server-side query filter and the query limits (250 products a page, one variant, ten metafields) are left out. A page holds whatever the server returned.
- `Batch.Action` requires that some page in the input ends the run: one with no next page, or one without usable data. The source itself loops for as long as the server reports a next page.
- Arithmetic is exact (real numbers), not IEEE-754 doubles. NaN and Infinity do not arise. A stored rate that is `null` or missing does not arise either, since the rate record holds two real numbers.
- `NumberParse.ParseFloat` covers plain decimal text with optional leading white space and sign. On the forms it does not cover, it gives a definite value that differs from JavaScript's: an exponent is ignored ("1e3" reads as 1 where `parseFloat` gives 1000, by `TrailingIgnored`), "Infinity" reads as NaN and so as 0 (by `NoPrefixIsNaN`), and text led by white space other than ASCII, U+00A0 and U+FEFF (U+1680, U+2000 to U+200A, U+2028, U+2029, U+202F, U+205F, U+3000) reads as NaN where `parseFloat` skips that space. Hexadecimal needs no case: `parseFloat("0x10")` is 0, and so is the model's reading.
- Metafield values are strings or `null`. `undefined` does not arise in a query response.
- Log output (`console.log`, `console.error`) is left out. The JSON reply is reduced to its status and its error text.
- Exceptions that the source would raise on a malformed product node (missing `tags` or `variants`) are left out. A write response with no `data`, where the source's log line throws inside the per-product `try`, is modelled: it is not counted and the loop goes on.
