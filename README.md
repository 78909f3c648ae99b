# Jinja2 test extensions, modelled in Dafny

This project models the extensions defined in `jinja2/testsuite/ext.py`.

- **`StreamFilterExtension`** rewrites the token stream of a template. It finds every
  gettext marker `_(...)` inside a `data` token and splices in the tokens of
  `{{ gettext("...") }}` in its place.
  - `interpolate` is the per-token generator.
  - `filter_stream` applies it to every `data` token and passes other tokens through.
- **`PreprocessorExtension.preprocess`** replaces every `[[TEST]]` in the template
  source with `({{ foo }})`.
- **`TestExtension._dump`** joins four values with `|`.

Both Python generators are modelled in two forms:
- as methods with the source's loops (`StreamFilter.Interpolate`,
  `StreamFilter.FilterStream`), with the yields collected in order;
- as specification functions (`Interpolation`, `Filtered`), which the methods are
  proved equal to.

The properties are proved about those functions:
- reading the output back gives the input text;
- no empty or marker-holding `data` token is yielded;
- every call is a complete six-token group on one line;
- text without a marker passes through unchanged;
- the rule for line numbers;
- `filter_stream` distributes over concatenation, fixes clean streams and is idempotent.

The search of `_gettext_re` (the pattern `_\((.*?)\)` with DOTALL) is written out by
hand as `GettextSearch.Search`. It finds the leftmost `_(` at or after the position
that has a `)` after it, and the lazy group stops at the first such `)`.
`SearchIsLeftmost` proves that this is the leftmost match and that the group holds
no `)`.

Line numbers follow the code, not what a reader might expect. At every match
`interpolate` adds the newline count of the **whole** token text (ext.py:74), not
of the text it has passed. So every output token sits on the token's own line plus
that count times the number of calls opened up to it (`LineNumbers.InterpolationLines`).
Across a stream, line numbers can therefore go down: `FilterFacts.LinesCanDecrease`
shows a stream whose output puts a token on line 3 before one on line 2. The model
keeps this behaviour as written.

Modules, one file each:
- `Wrappers`: `Option`.
- `Lexer`: the token record and `count_newlines`.
- `GettextSearch`: the regex search.
- `StreamFilter`: the extension's code.
- `ReadBack`: reading tokens back as text.
- `InterpolationFacts`, `OutputShape`, `LineNumbers`: properties of `interpolate`.
- `FilterFacts`: properties of `filter_stream`, and the test template.
- `Preprocessor`.
- `Dump`.

## Model

| member | source | states |
|---|---|---|
| Lexer.CountNewlines | jinja2/testsuite/ext.py:74 | the number of line breaks counted in a text is at most its length, and 0 for empty text |
| Lexer.CountNewlinesIsLineFeeds | jinja2/testsuite/ext.py:74 | without '\r', the count of line breaks is the number of '\n' characters |
| Lexer.TagInjective | jinja2/testsuite/ext.py:57 | two token kinds have the same type name if and only if they are the same kind |
| Lexer.DataTag | jinja2/testsuite/ext.py:57 | the test `token.type == 'data'` holds exactly for Data tokens, never for any other kind |
| GettextSearch.FindClose | jinja2/testsuite/ext.py:23 | a ')' it reports lies at or after the start position and inside the text |
| GettextSearch.FindCloseIsFirst | jinja2/testsuite/ext.py:23 | the ')' found is the first one, and none is reported only when there is none |
| GettextSearch.Search | jinja2/testsuite/ext.py:23 | a reported match starts with "_(" at or after pos and closes with a ')' at least two characters later |
| GettextSearch.SearchIsLeftmost | jinja2/testsuite/ext.py:23 | the reported match is the leftmost at or after pos, and its lazy group holds no ')'; no match means the pattern matches nowhere at or after pos |
| StreamFilter.GettextCall | jinja2/testsuite/ext.py:75-80 | the six tokens of `{{ gettext("...") }}` for one marker; its properties are `InterpolationFacts.ReassembleCall` (reads back as the marker), `OutputShape.CallIsClean` (one complete clean group) and `LineNumbers.CallStamped` (all on one line) |
| StreamFilter.InterpolateFrom | jinja2/testsuite/ext.py:66-83 | what the loop of `interpolate` yields from a position on; its properties are `InterpolationFacts.Advance`, `OutputShape.PiecesFrom` and `LineNumbers.StampAdvance` |
| StreamFilter.Interpolation | jinja2/testsuite/ext.py:63-83 | everything `interpolate` yields; its properties are the round trip `InterpolationFacts.ReassembleInterpolation`, the shape `OutputShape.InterpolationShape` and `OutputShape.InterpolationPieces`, the pass-through `OutputShape.NoMatchPassesThrough` and the line rule `LineNumbers.InterpolationLines` |
| StreamFilter.Turn | jinja2/testsuite/ext.py:71-81 | the body of the loop appends the text before the match (if non-empty) on the current line and the six call tokens on the line advanced by the newline count, moves the position to just behind the match's ')', and keeps the output still to come |
| StreamFilter.Interpolate | jinja2/testsuite/ext.py:63-83 | the loop of `interpolate` yields exactly `Interpolation(token)` |
| StreamFilter.Expand | jinja2/testsuite/ext.py:57-61 | what one upstream token becomes; its property is `FilterFacts.ExpandClean` |
| StreamFilter.Filtered | jinja2/testsuite/ext.py:55-61 | everything `filter_stream` yields; its properties are `FilterFacts.FilteredAppend`, `FilteredFixed`, `FilteredClean` and `FilterIdempotent` |
| StreamFilter.FilterStream | jinja2/testsuite/ext.py:55-61 | `filter_stream` yields exactly `Filtered(stream)`: each data token's interpolation and every other token unchanged, in order |
| InterpolationFacts.ReassembleData | jinja2/testsuite/ext.py:71-73 | the data token yielded for the text before a match (or nothing for empty text) reads back as that text |
| InterpolationFacts.ReassembleCall | jinja2/testsuite/ext.py:75-80 | the six call tokens read back as the marker "_(" + group + ")" |
| InterpolationFacts.Advance | jinja2/testsuite/ext.py:68-81 | one match appends the text before it (if any) and its call and moves just behind its ')'; the yielded tokens then read back as the text up to and including that ')' |
| InterpolationFacts.ReassembleTail | jinja2/testsuite/ext.py:82-83 | after the last match the yielded tokens read back as the whole text |
| InterpolationFacts.ReassembleInterpolation | jinja2/testsuite/ext.py:63-83 | round trip: reading back the output of `interpolate` gives the token's text |
| OutputShape.CallIsClean | jinja2/testsuite/ext.py:75-80 | a call whose group has no ')' is clean and is one complete six-token group |
| OutputShape.ShapeAdvance | jinja2/testsuite/ext.py:68-81 | one match appends exactly the text before it (if any) as a marker-free non-empty data token and a complete call whose string has no ')', and moves just behind the ')' |
| OutputShape.ShapeTail | jinja2/testsuite/ext.py:82-83 | the final data token is non-empty and holds no marker |
| OutputShape.InterpolationShape | jinja2/testsuite/ext.py:63-83 | no data token of the output is empty or holds a marker, no string token holds ')', and every variable_begin opens the six call tokens on one line |
| OutputShape.PiecesFrom | jinja2/testsuite/ext.py:66-83 | from any position on, the output is a sequence of pieces, each a clean data token not followed by another data token or a complete call whose string has no ')' |
| OutputShape.InterpolationPieces | jinja2/testsuite/ext.py:63-83 | the output of `interpolate` splits into exactly such pieces, so every token belongs to a clean data token or to a complete six-token call on one line, and no two data tokens are adjacent |
| OutputShape.NoMatchPassesThrough | jinja2/testsuite/ext.py:67-83 | the output is the single data token of the original line (or nothing for empty text) if and only if the text holds no marker |
| LineNumbers.CallStamped | jinja2/testsuite/ext.py:74-80 | all six call tokens carry the line advanced for one more call |
| LineNumbers.StampAdvance | jinja2/testsuite/ext.py:71-81 | one match appends the text before it and its call and moves just behind the ')'; after k matches the current line is the token's line plus k times the whole text's newline count |
| LineNumbers.StampTail | jinja2/testsuite/ext.py:82-83 | the final data token sits on the current line |
| LineNumbers.InterpolationLines | jinja2/testsuite/ext.py:66-74 | every output token sits on the token's line plus the newline count times the number of calls opened up to it |
| LineNumbers.StampedMonotone | jinja2/testsuite/ext.py:66-74 | lines stamped this way never go down and never fall below the base line |
| LineNumbers.InterpolationLinesMonotone | jinja2/testsuite/ext.py:66-74 | within one token's output, line numbers are non-decreasing and at least the token's own |
| FilterFacts.FilteredAppend | jinja2/testsuite/ext.py:55-61 | filtering a concatenation is concatenating the filtered parts |
| FilterFacts.ExpandClean | jinja2/testsuite/ext.py:57-61 | a token that is not data, or whose text is non-empty and marker-free, becomes itself |
| FilterFacts.FilteredFixed | jinja2/testsuite/ext.py:55-61 | a stream whose data tokens are non-empty and marker-free passes through unchanged |
| FilterFacts.FilteredWithoutData | jinja2/testsuite/ext.py:60-61 | a stream without data tokens passes through unchanged |
| FilterFacts.FilteredClean | jinja2/testsuite/ext.py:55-59 | every data token the filter yields is non-empty and marker-free |
| FilterFacts.FilterIdempotent | jinja2/testsuite/ext.py:55-61 | filtering twice is filtering once |
| FilterFacts.OneMarker | jinja2/testsuite/ext.py:63-83 | single-line text with one marker and text behind it becomes the text before, the call on the token's line, and the text behind |
| FilterFacts.FooBarBazInterpolation | jinja2/testsuite/ext.py:145-150 | the test template `Foo _(bar) Baz` becomes "Foo ", the call `gettext("bar")` and " Baz", all on line 1 |
| FilterFacts.LinesCanDecrease | jinja2/testsuite/ext.py:57-74 | the filter can yield a token on line 3 and then one on line 2 |
| Preprocessor.ReplaceMarkers | jinja2/testsuite/ext.py:49-50 | `str.replace` of `[[TEST]]` by `({{ foo }})`, left to right; its properties are `ReplaceLength`, `MarkerFreeUnchanged`, `NoReplacementMarkerFree`, `KeptPrefix` and `NoMarkerLeft` |
| Preprocessor.Preprocess | jinja2/testsuite/ext.py:49-50 | `preprocess` ignores the name and file name; its properties are `PreprocessIdentity`, `PreprocessIdempotent` and `PreprocessTemplate` |
| Preprocessor.ReplaceLength | jinja2/testsuite/ext.py:49-50 | each replacement lengthens the source by exactly three characters |
| Preprocessor.MarkerFreeUnchanged | jinja2/testsuite/ext.py:49-50 | a source without `[[TEST]]` comes out unchanged |
| Preprocessor.ReplaceFirst | jinja2/testsuite/ext.py:49-50 | the first `[[TEST]]` becomes `({{ foo }})`, the text before it is kept as it was, and the scan goes on behind it; with `MarkerFreeUnchanged` this fixes the output for every source |
| Preprocessor.NoReplacementMarkerFree | jinja2/testsuite/ext.py:49-50 | the scan replaces nothing only if there is no `[[TEST]]` |
| Preprocessor.PreprocessIdentity | jinja2/testsuite/ext.py:49-50 | `preprocess` returns its source unchanged if and only if the source holds no `[[TEST]]` |
| Preprocessor.KeptPrefix | jinja2/testsuite/ext.py:49-50 | an output prefix without a character of the substitute is the input's prefix, untouched |
| Preprocessor.NoMarkerLeft | jinja2/testsuite/ext.py:49-50 | no `[[TEST]]` remains after replacement, not even one formed across inserted text |
| Preprocessor.PreprocessIdempotent | jinja2/testsuite/ext.py:49-50 | preprocessing twice is preprocessing once |
| Preprocessor.PreprocessTemplate | jinja2/testsuite/ext.py:140-143 | the test template `{[[TEST]]}` becomes `{({{ foo }})}` |
| Dump.DumpText | jinja2/testsuite/ext.py:38-44 | the text `_dump` returns; its properties are `DumpIsJoin` and `DumpFields` |
| Dump.JoinBars | jinja2/testsuite/ext.py:39 | joining with a bar: no parts join to empty text, otherwise the length is the parts' total length plus one per gap |
| Dump.JoinBarsCount | jinja2/testsuite/ext.py:39 | the joined text holds the parts' own bars plus exactly one per gap between two parts, and the empty list joins to empty text |
| Dump.SplitJoin | jinja2/testsuite/ext.py:38-44 | splitting at bars undoes joining when no part holds a bar |
| Dump.JoinSplit | jinja2/testsuite/ext.py:38-44 | joining undoes splitting for any text |
| Dump.DumpIsJoin | jinja2/testsuite/ext.py:38-44 | the dump is the four values joined by bars |
| Dump.DumpFields | jinja2/testsuite/ext.py:38-44 | the four values can be read back from the dump when none of them holds a bar |

## Left out

- StreamFilter.Interpolate: requires the token to carry text. The source reads `len(token.value)` and fails on `None`; the lexer always gives `data` tokens a text, so the model does not include that failure.
- StreamFilter.FilterStream: requires every data token to carry text, for the same reason.
- The generators' laziness and their interleaving with the consumer are not modelled. Each generator is the sequence of everything it yields, in order.
- Python's regular-expression engine is not modelled. `GettextSearch.Search` implements this one pattern directly.
- `count_newlines` lives in `jinja2/lexer.py`, which is not part of this model. `Lexer.CountNewlines` follows its pattern `\r\n|\r|\n`, taking the leftmost alternative first.
- Token types other than the seven the filter reads or writes are `Other`, whose tag is none of those seven type names. The lexer and the `Token` class (jinja2/lexer.py) are not part of this model.
- Dump.DumpText: takes its four values already turned into text. The `%s` formatting of a bool, an int and the `context.blocks` dict, and the `nodes` the `{% test %}` tag compiles to, are not modelled.
- Preprocessor.Preprocess: ignores the template name and file name, as the source does. Python's `str.replace` is modelled only for this non-empty pattern.
- `TestExtension.parse` (ext.py:30-36), the `identifier` and `overlay` tests (ext.py:130-138), the rendering tests (ext.py:88-123) and the unittest suite (ext.py:153-156) are not modelled. They depend on the parser, the compiler and the environment, which are not part of this model.
