# toktab: a Dafny model of the client core

toktab is a command-line client for a catalog of LLM model pricing. It
fetches one model record (`get_model`) or a list of search hits (`search`)
from `https://toktab.com/api` and shows them as terminal tables. This
project models the two parts of it that hold logic:

- **The API client** (`src/toktab/api.py`). It covers the request each call
  sends (URL, `q` and `limit` parameters, timeout, redirect following),
  the clamp of the search limit to 50, and the mapping from what the
  transport did to the result. That result is either the returned body or
  one of two error kinds, `ModelNotFoundError` and `APIError`, each with its
  exact message. The HTTP call is a parameter `transport: Request -> Outcome`.
  An `Outcome` is a timeout, another request error with its text, or a
  response with a status code and a decoded body.
- **The display extraction** (`src/toktab/display.py`).
  - `format_tokens` renders a token count as `-`, a plain integer, or a
    `K`/`M` magnitude.
  - The rest is what `display_model`, `display_search_results` and
    `display_providers` pick out of a record before rendering: the header
    fallbacks, the pricing and context rows, the capability labels in
    their fixed order, the search-result rows with their column
    fallbacks, and the provider lines.

Modules: `Wrappers` (Option/Result), `Decimal` (Python's `str(int)` and a
parser for it), `Json` (decoded values, Python truthiness, `dict.get`),
`Tokens` (`format_tokens`), `Display` (the extraction) and `Client` (the API
client). The operations that loop in the source are methods with loops:
the capability loop, the search-table loop and the provider loop. Each is
proved equal to a specification function, or to what the source promises.
All other operations are functions.

Choices worth knowing:

- **Float division in `format_tokens`.** `tokens / 1_000` is a float. Its
  `value == int(value)` test is modelled as `tokens % 1000 == 0`.
- **The `.1f` rounding.** It is modelled as rounding the exact quotient to
  the nearest tenth, ties to even (`RoundTenths`). This matches Python on
  every value that is not a tie, and on ties that are exact in binary
  (`x.25`, `x.75`).
- **The trailing-zero strip.** `rstrip("0").rstrip(".")` is modelled
  literally as `RStrip`. The contract of `Scaled` states that it removes nothing:
  the string already ends in `K` or `M`. So a non-multiple always keeps
  one decimal (`8010` gives `8.0K`, `999999` gives `1000.0K`).
- **Which statuses are errors.** `raise_for_status` is taken to pass exactly
  the 2xx statuses, as current `httpx` does. Every other status becomes the
  `APIError` `API error: <code>`, except 404 in `get_model`
  (`ModelNotFoundError`) and 400 in `search` (the `APIError`
  `Invalid search query`). This includes the "status >= 400" case.
- **Two error kinds.** The code has two exception classes,
  `ModelNotFoundError` and `APIError`. A timeout is not a separate kind: it is
  an `APIError` with its own message (`Client.ClientError`).
- **`ModelNotFoundError` is not caught.** It is raised inside the `try` of
  `get_model`, and the `except` clauses name only `httpx` exceptions. So it
  reaches the caller unchanged (`GetModel`, `NotFoundOnlyFromGetModel`).
- **When `len(results)` runs.** In `display_search_results`, `len(results)`
  is evaluated as the default of `count` before the emptiness test. A
  `results` value without a length raises `TypeError`. A non-empty result
  that is not a list of dicts raises `AttributeError` on `.get`. These two
  are the `Fault` outcome of `SearchPageOf`. A dict result whose cell values
  Rich cannot render fails later, inside Rich; that failure is listed under
  "Left out".
- **The default search limit.** `search(query)` without a limit sends 20
  (`Client.DefaultSearchLimit`). `Client.Search` takes the limit explicitly,
  so a call without one is `Search(query, DefaultSearchLimit, transport)`.
- **Missing key versus JSON `null`.** `data.get(key, default)` replaces only
  a missing key. A key present with a JSON `null` gives `Null`
  (`Json.GetOr`).

## Model

| member | source | states |
|---|---|---|
| Decimal.NatToString | src/toktab/display.py:59 | the decimal rendering of a natural number: never empty, all digits, a leading `0` only for zero |
| Decimal.IntToString | src/toktab/display.py:59 | `str(int)`: leading `-` exactly for negatives, then canonical digits with no leading zero except for zero itself |
| Decimal.ParseIntToString | src/toktab/display.py:59 | reading back `str(i)` gives `i` (the rendering is invertible) |
| Decimal.IntToStringInjective | src/toktab/api.py:52 | distinct integers have distinct renderings, so a status message identifies its status |
| Json.Truthy | src/toktab/display.py:117-155 | Python truthiness: false exactly for `None`, `False`, `0`, `0.0`, `""`, `[]` and `{}` |
| Json.Get | src/toktab/display.py:106-107 | `data.get(key)`: the stored value, or `None` for a missing key |
| Json.GetOr | src/toktab/display.py:94-95 | `data.get(key, default)`: the default only for a missing key, a stored `null` kept |
| Json.Length | src/toktab/display.py:190 | `len()` exists exactly for strings, lists and dicts, and is zero exactly when the value is falsy |
| Tokens.RStrip | src/toktab/display.py:53 | `rstrip(c)` leaves a prefix that does not end in `c` and removes only `c` characters |
| Tokens.RoundTenths | src/toktab/display.py:53 | the rounded count of tenths is the truncated quotient or one more |
| Tokens.RoundTenthsNearest | src/toktab/display.py:53 | the one-decimal rounding picks a nearest tenth, and the even one on a tie |
| Tokens.OneDecimal | src/toktab/display.py:53 | `.1f`: canonical digits (no leading zero unless the integer part is zero), a point and one digit, which read back as the rounded number of tenths |
| Tokens.Scaled | src/toktab/display.py:49-58 | a magnitude ends in its suffix; a multiple is the quotient plus the suffix; for a non-multiple the zero and point strip removes nothing |
| Tokens.FormatTokens | src/toktab/display.py:38-59 | never empty; `-` iff None; suffix `M` iff tokens >= 1 000 000, `K` iff 1 000 <= tokens < 1 000 000, a final digit iff tokens < 1 000 |
| Tokens.FormatTokensNone | src/toktab/display.py:47-48 | `format_tokens(None)` is `-` |
| Tokens.FormatTokensSmall | src/toktab/display.py:59 | below 1000, negatives included, the result is `str(tokens)` and reads back as the count |
| Tokens.FormatTokensExact | src/toktab/display.py:49-57 | multiples render as `8K`, `2M`: quotient plus suffix |
| Tokens.FormatTokensOneDecimal | src/toktab/display.py:49-58 | non-multiples render as the nearest tenth (ties to even), one decimal always kept, plus suffix |
| Tokens.OneDecimalReadBack | src/toktab/display.py:53 | the one-decimal rendering reads back within half a tenth of the unit |
| Tokens.ScaledReadBack | src/toktab/display.py:49-58 | a magnitude reads back exactly for multiples and otherwise within half a tenth of the unit |
| Tokens.FormatTokensReadBack | src/toktab/display.py:38-59 | every rendering except `-` reads back as a count: exact below 1000 and for multiples, otherwise within 50 (K) or 50 000 (M) |
| Tokens.FormatTokensExamplesSmall | src/toktab/display.py:59 | 500 renders as `500` |
| Tokens.FormatTokensExamplesExact | src/toktab/display.py:51-57 | 8000, 128000, 1000000, 2000000 render as `8K`, `128K`, `1M`, `2M` |
| Tokens.FormatTokensExampleRounded | src/toktab/display.py:58 | 8192 renders as `8.2K` |
| Tokens.FormatTokensExampleKeptZero | src/toktab/display.py:58 | 8010 renders as `8.0K`: the zero is not stripped |
| Tokens.FormatTokensExampleCarry | src/toktab/display.py:54-58 | 999999 renders as `1000.0K`: rounding carries into the integer part and the `K` range is kept |
| Display.PresentSpec | src/toktab/display.py:153-155 | the selected positions are increasing and are exactly the fields whose value is truthy |
| Display.TruthyRowsSpec | src/toktab/display.py:117-137 | one row per truthy field, in field order, with that field's label and value |
| Display.TruthyRowsMembership | src/toktab/display.py:117-137 | a field's row is present iff its value is truthy; every row's value is truthy; no label twice |
| Display.TruthyRowsHold | src/toktab/display.py:132-137 | the row `(label, value)` of a field is present iff the value is truthy |
| Display.TruthyRowsNonEmpty | src/toktab/display.py:166 | some row is added iff some field is truthy |
| Display.TruthyLabelsSpec | src/toktab/display.py:153-155 | the labels are those of the truthy fields, in field order, without duplicates, and a label is present iff its field is truthy |
| Display.CapabilityLabelsDistinct | src/toktab/display.py:141-151 | the nine capability labels are distinct |
| Display.ContextLabelsDistinct | src/toktab/display.py:132-137 | the three context labels are distinct |
| Display.Capabilities | src/toktab/display.py:140-155 | the capabilities are exactly the labels whose flag is truthy, in the fixed list order, each once; none iff no flag is truthy |
| Display.CollectCapabilities | src/toktab/display.py:140-155 | the capability loop builds exactly `Capabilities(data)` |
| Display.PricingRows | src/toktab/display.py:106-125 | Input and Output rows always come first; Cache read iff its cost is truthy, before Cache write iff its cost is truthy; nothing else |
| Display.ContextRows | src/toktab/display.py:128-137 | Max input, Max output, Max total in that order, one row per truthy limit holding that limit, and no other row; the row of a limit is present iff the limit is truthy |
| Display.LimitCell | src/toktab/display.py:133-137 | the context cell of an integer limit is `format_tokens` of it: never `-`, with the K/M suffix of its range, reading back exactly below 1000 and otherwise within half a tenth of the unit |
| Display.Sections | src/toktab/display.py:162-175 | Pricing first, then Context Window and Capabilities in that order, each iff its table has a row |
| Display.ModelPageOf | src/toktab/display.py:94-175 | the tables are exactly `PricingRows`, `ContextRows` and `Capabilities` of the record; the title is the model name, else the slug, else `Unknown`, and the provider defaults to `Unknown`, only for missing keys; Context Window iff some limit is truthy; Capabilities iff some flag is |
| Display.SearchRowOf | src/toktab/display.py:208-213 | the model column is slug, else name, else `?`; the provider column defaults to `-`; a missing cost is `None` |
| Display.SearchRows | src/toktab/display.py:207-216 | the table succeeds iff every result is a dict, and then has one row per result, in order; otherwise the `.get` fault |
| Display.BuildSearchRows | src/toktab/display.py:207-216 | the table loop builds exactly `SearchRows(results)`, stopping at the first non-dict |
| Display.SearchRowsFailPrefix | src/toktab/display.py:207-212 | once an entry is not a dict, the whole table fails the same way |
| Display.SearchPageOf | src/toktab/display.py:189-216 | a `len()` fault iff the results have no length; the no-match page, with the query, iff the results are missing or falsy; the `.get` fault iff the results are truthy and not a list of dicts; otherwise one row per result in order, count defaulting to the number of results |
| Display.ProviderListing | src/toktab/display.py:222-242 | the heading count is the number of providers; one bullet line per provider, in order, from which the provider reads back |
| Client.StatusMessageReadBack | src/toktab/api.py:52 | the `API error: <code>` message reads back as its status code |
| Client.MessagesDistinct | src/toktab/api.py:49-54 | the timeout, network, invalid-query and status messages never coincide |
| Client.ModelRequest | src/toktab/api.py:42-44 | `get_model` requests `BASE_URL/<slug>/`, from which the slug reads back, with timeout 10, redirects followed and no parameters |
| Client.GetModel | src/toktab/api.py:29-54 | body iff a 2xx response, and then unchanged; ModelNotFound iff 404, with `Model '<slug>' not found`; timeout and network messages; any other status the APIError `API error: <status>` |
| Client.ClampLimit | src/toktab/api.py:71 | the limit sent is at most 50; unchanged iff at most 50; 50 for anything above; no lower bound |
| Client.SearchRequest | src/toktab/api.py:70-73 | `search` requests `BASE_URL/search` with `q` the query unchanged and `limit` unchanged up to 50 and 50 above; clamping again changes nothing |
| Client.Search | src/toktab/api.py:57-83 | body iff a 2xx response; every error is an APIError; 400 gives `Invalid search query`; any other status `API error: <status>`; timeout and network messages |
| Client.SearchLimitExamples | src/toktab/api.py:57-71 | limits 10, 100 and -5 are sent as 10, 50 and -5; the default limit is sent as 20 |
| Client.SearchNeverNotFound | src/toktab/api.py:78-81 | a 404 from `search` gives the APIError `API error: 404`, not ModelNotFoundError |
| Client.NotFoundOnlyFromGetModel | src/toktab/api.py:45-54 | the same 404 response is ModelNotFound from `get_model` and an APIError from `search` |

## Left out

- HTTP transport: the `httpx.get` call, its network I/O, redirects and the 10-second timer. They are replaced by the `transport` parameter. The request records the timeout and the redirect flag, nothing more.
- JSON decoding: `response.json()` and the `json.JSONDecodeError` it can raise are not modelled. The body reaches the model already decoded.
- A decoded body that is not a JSON object. `ModelPageOf` and `SearchPageOf` take a `Record`, as the `data: dict[str, Any]` annotations of `display_model` and `display_search_results` say. A list, string, number or `null` body, which the command line passes on unchanged from `response.json()`, would make `data.get` raise `AttributeError` (display.py:94, display.py:189); that failure is not modelled.
- Exceptions from `httpx.get` that are neither timeouts nor request errors, such as `httpx.InvalidURL`. They are not modelled.
- Query-string encoding of `q` and `limit`, and the escaping of the slug in the URL path. These are done by `httpx`.
- Client.GetModel: which statuses count as errors. This follows current `httpx`, where `raise_for_status` raises for every non-2xx status. Older `httpx` versions raised only for 4xx and 5xx; under those, a final 1xx or 3xx response would return its body.
- The `--json` branches of `display_model`, `display_search_results` and `display_providers`. They print `json.dumps` of the input unchanged.
- All Rich rendering: console printing, styles, markup, panels and blank lines.
  - The text of the `Found N model(s)` and `No models found for '<query>'` lines is not modelled; `SearchPage` models which of the two appears.
  - The ` · ` join of the capability line and the provider tip line are not modelled either.
- `format_cost` and `get_cost_style`. Their output depends on IEEE float multiplication and `.4f`/`.2f` rounding. Pricing and search rows therefore carry the raw cost value that the cell renders. `format_cost` also raises `TypeError` for a cost that is a string, list or dict, because it multiplies the cost by 1 000 000 and compares the product with a float (display.py:27-28). `display_model` and `display_search_results` then raise where `ModelPageOf` and `SearchRowOf` return a page. `ModelPageOf` and `SearchRowOf` do not model that failure.
- Display.LimitCell: gives the cell text only for integer limits. Limits that are booleans, floats or strings are not modelled. Python would print those through `str`, float formatting, or a `TypeError`.
- Tokens.FormatTokens: does not model how `.1f` breaks a tie whose decimal is not exact in binary. The model breaks every tie to the even tenth, and `RoundTenthsNearest` and `FormatTokensOneDecimal` state that choice. So `8050` gives `8.0K` in the model, while Python may give `8.1K` because `8.05` is not exact as a float.
- Tokens.FormatTokens: does not model the loss of float precision for counts above 2^53.
- Rich's rejection of cells it cannot render. `title.append(name)` (display.py:98) raises `TypeError` when the name is not a string, including a stored `null`. `table.add_row` (display.py:211-213) raises `rich.errors.NotRenderableError` for a model or provider value that is a number, a boolean, a list or a dict; a `None` cell is rendered blank. The model carries these values unchanged in `ModelPage` and `SearchRow`, and does not model either failure. The provider in the title goes through an f-string and never fails.
- `display_error`: prints `Error: <message>`. It is pure rendering.
- `src/toktab/cli.py`: the click command group, option parsing, version and help output, and the exit codes. `cli.py` is not part of this model.
