# Gemini SDK core, modelled in Dafny

This project models the core of a small Java SDK for a generative-text HTTP API.

- **Constructing the client.** `GoogleGenerativeAI(apiKey, model)` rejects a null or blank API key first, then a null or blank model name. Otherwise it keeps both as given.
- **Building the request text.**
  - A plain prompt is sent unchanged.
  - A prompt with a list of items becomes the prompt, the label `Datos cargados:` and one `• item` line per item.
  - A prompt with a file of comma-separated text becomes a fixed Spanish template: the file rendered as a Markdown table, then the question.
  - A null or empty list falls back to the plain prompt. So does a null, missing or empty file.
- **Rendering the Markdown table.** `asMarkdownTable` splits the text on Java's `\R` line breaks and takes line 0 as the header. Every line is split on `,`. The output is the header row, a `|---|…` separator sized to the header, and one row per further line. There is no padding and no quoting.
- **Building the payload.** `GeminiRequest.toBody` builds `{contents:[{parts:[{text:prompt}]}]}`.
- **Reading the response.** `GeminiResponse.firstText` reads `candidates[0].content.parts[0].text` from the JSON response. It falls back to the sentinels `"No candidates found."` and `"No text available"`.

Modules:

- `Wrappers`: Option and Result.
- `JavaStrings`: the `java.lang.String` behaviour the code depends on.
  - `isBlank`, using `Character.isWhitespace`.
  - `split(",")` and `split("\\R")`. If there is no match, the input is returned whole, so `""` gives `[""]`. Trailing empty strings are dropped, so an input made only of line breaks gives no line. CRLF counts as one break.
  - `String.join` and `repeat`.
- `Json`: a JSON tree, plus Jackson's `path(field)`, `path(index)` (a missing step gives the MissingNode) and `asText(default)`.
- `GeminiRequest`: the request record and its payload.
- `GeminiResponse`: the response and `firstText`.
- `GoogleGenerativeAI`: the client and its `generate`/`prompt` variants. Following the code's flavour:
  - The table and the list prompt are methods that build the text in a loop, as the string builders do. Each is proved equal to a specification function.
  - The rest is pure functions and lemmas.
  - The three `prompt` overloads are one `Prompt` method over a tagged `AuxData` value.

Behaviour that is easy to get wrong, modelled as the code has it:

- **Whitespace-only files.** Only an empty file (`file.length() == 0`) falls back to the plain prompt. A file of blanks is rendered as a one-cell table. A file made only of line breaks splits into zero lines, so it is embedded unchanged (`TableOfNoLines`).
- **List label.** The label is `Datos cargados:`, as in the code.

## Model

| member | source | states |
|---|---|---|
| GoogleGenerativeAI.NewClient | src/main/java/com/gperzal/gemini/GoogleGenerativeAI.java:21-27 | a client results exactly when both arguments are non-null and non-blank, and it stores them unchanged; a bad API key is reported first (MissingApiKey), a bad model only when the key is fine |
| GoogleGenerativeAI.ConstructorMessages | src/main/java/com/gperzal/gemini/GoogleGenerativeAI.java:22-25 | a rejected key gives "Gemini API key is required.", a rejected model (with a good key) "Gemini model name is required.", and the two messages differ |
| GoogleGenerativeAI.BlankArguments | src/main/java/com/gperzal/gemini/GoogleGenerativeAI.java:22-24 | `isBlank` follows `Character.isWhitespace`: the empty key and a key of spaces, tabs, CR, LF, U+3000 and U+2028 are rejected; the non-breaking spaces U+00A0, U+2007 and U+202F are not blank |
| GoogleGenerativeAI.Generate | src/main/java/com/gperzal/gemini/GoogleGenerativeAI.java:64-67 | `generate(prompt)` sends with the client's model and key, and the payload's single text part is the prompt exactly |
| JavaStrings.SplitLines | src/main/java/com/gperzal/gemini/GoogleGenerativeAI.java:109 | `csv.split("\\R")`: an input without a line terminator is its own single line; otherwise the lines are the pieces between `\R` matches with the trailing empty ones dropped; no line contains a terminator; there are zero lines exactly when the input is non-empty and made of line terminators only |
| JavaStrings.LinePiecesBreak | src/main/java/com/gperzal/gemini/GoogleGenerativeAI.java:109 | a first line `a` ended by one `\R` match (CR LF, or a single terminator that is not the CR of a CR LF) is the first piece, followed by the pieces of the rest; with `LinePiecesNone` this fixes every piece, in order |
| JavaStrings.SplitLinesBreak | src/main/java/com/gperzal/gemini/GoogleGenerativeAI.java:109 | the lines of `a`, a break and `b` are `a` followed by the pieces of `b`, trailing empty lines dropped |
| JavaStrings.LinePiecesNone | src/main/java/com/gperzal/gemini/GoogleGenerativeAI.java:109 | a string without line terminators is one piece, itself |
| JavaStrings.CrLfIsOneBreak | src/main/java/com/gperzal/gemini/GoogleGenerativeAI.java:109 | `a + "\r\n" + b` gives exactly the two lines `a` and `b` |
| JavaStrings.LfCrIsTwoBreaks | src/main/java/com/gperzal/gemini/GoogleGenerativeAI.java:109 | `a + "\n\r" + b` gives `a`, an empty line and `b` |
| JavaStrings.SplitLinesOfEmpty | src/main/java/com/gperzal/gemini/GoogleGenerativeAI.java:109 | the empty string gives one empty line, not zero lines |
| JavaStrings.LinePiecesAllEmpty | src/main/java/com/gperzal/gemini/GoogleGenerativeAI.java:109-110 | every piece between line breaks is empty exactly when every character is a line terminator |
| JavaStrings.DropTrailingEmpty | src/main/java/com/gperzal/gemini/GoogleGenerativeAI.java:109 | the result is a prefix of the pieces, everything dropped is empty, and the result does not end with an empty string |
| JavaStrings.CharPieces | src/main/java/com/gperzal/gemini/GoogleGenerativeAI.java:113 | there is at least one piece, and no piece contains the separator |
| JavaStrings.CharPiecesJoin | src/main/java/com/gperzal/gemini/GoogleGenerativeAI.java:113 | joining the pieces with the separator gives back the input |
| JavaStrings.Split | src/main/java/com/gperzal/gemini/GoogleGenerativeAI.java:113 | `line.split(",")`: no field contains a comma |
| JavaStrings.SplitRecombines | src/main/java/com/gperzal/gemini/GoogleGenerativeAI.java:113 | the kept fields, joined with commas, are a prefix of the line and only commas follow it (only trailing empty fields are lost); the last kept field is not empty |
| JavaStrings.SplitNone | src/main/java/com/gperzal/gemini/GoogleGenerativeAI.java:113 | a line with no comma is its own single field |
| JavaStrings.JoinSnoc | src/main/java/com/gperzal/gemini/GoogleGenerativeAI.java:113 | `String.join(sep, parts)` with one more part is the old join, the separator and the new part |
| JavaStrings.JoinAvoids | src/main/java/com/gperzal/gemini/GoogleGenerativeAI.java:113 | a join contains no character that is in neither the separator nor a part |
| JavaStrings.RepeatLength | src/main/java/com/gperzal/gemini/GoogleGenerativeAI.java:115 | `w.repeat(k)` is k times as long as `w` |
| GoogleGenerativeAI.RepeatAvoids | src/main/java/com/gperzal/gemini/GoogleGenerativeAI.java:115 | every character of `"---\|".repeat(k)` is one of `-` and `\|` |
| GoogleGenerativeAI.AsMarkdownTable | src/main/java/com/gperzal/gemini/GoogleGenerativeAI.java:108-124 | the string-builder loop produces exactly the table `MarkdownTable(csv)` |
| GoogleGenerativeAI.TableOfNoLines | src/main/java/com/gperzal/gemini/GoogleGenerativeAI.java:109-110 | an input that splits into zero lines (non-empty, line breaks only) is returned unchanged |
| GoogleGenerativeAI.TableStartsWithHeader | src/main/java/com/gperzal/gemini/GoogleGenerativeAI.java:112-113 | otherwise the output starts with `"\n\| "`, the header's comma fields joined by `" \| "`, then `" \|\n"` |
| GoogleGenerativeAI.SeparatorCells | src/main/java/com/gperzal/gemini/GoogleGenerativeAI.java:115 | the separator row for k header fields, split on `\|`, is an empty piece, exactly k cells `---`, and an empty piece |
| GoogleGenerativeAI.RepeatPieces | src/main/java/com/gperzal/gemini/GoogleGenerativeAI.java:115 | `"---\|".repeat(k)` has exactly k `---` cells |
| GoogleGenerativeAI.DataRowsPieces | src/main/java/com/gperzal/gemini/GoogleGenerativeAI.java:117-121 | each data line gives exactly one row, in input order, from its own comma fields |
| GoogleGenerativeAI.TableRows | src/main/java/com/gperzal/gemini/GoogleGenerativeAI.java:112-121 | split on line feeds, the table is the leading break, the header row, the separator sized to the header, one row per further line in order, and the final break: data lines + 2 rows |
| GoogleGenerativeAI.TwoColumnTable | src/main/java/com/gperzal/gemini/GoogleGenerativeAI.java:108-124 | a header and two data lines of two fields each render as `\| h1 \| h2 \|`, `\|---\|---\|` and the two rows in order |
| GoogleGenerativeAI.GenerateWithList | src/main/java/com/gperzal/gemini/GoogleGenerativeAI.java:95-103 | the bullet loop sends the client's model and key with the request text `ListText(prompt, data)` |
| GoogleGenerativeAI.ListFallback | src/main/java/com/gperzal/gemini/GoogleGenerativeAI.java:96-97 | the list request text equals the plain prompt exactly when the list is null or empty |
| GoogleGenerativeAI.BulletLines | src/main/java/com/gperzal/gemini/GoogleGenerativeAI.java:99-100 | N items without line feeds give exactly N lines `• item`, in order |
| GoogleGenerativeAI.ListExample | src/main/java/com/gperzal/gemini/GoogleGenerativeAI.java:99-100 | `["a","b"]` after `"List:"` gives `"List:\n\nDatos cargados:\n• a\n• b\n"` |
| GoogleGenerativeAI.GenerateWithFile | src/main/java/com/gperzal/gemini/GoogleGenerativeAI.java:69-92 | sends the client's model and key with the request text `FileText(prompt, file)`, rendering the table with `AsMarkdownTable` |
| GoogleGenerativeAI.FileFallback | src/main/java/com/gperzal/gemini/GoogleGenerativeAI.java:71-72 | the file request text equals the plain prompt exactly when the file is null, missing or empty |
| GoogleGenerativeAI.TableBeforeQuestion | src/main/java/com/gperzal/gemini/GoogleGenerativeAI.java:77-85 | for a non-empty file, the text is the introduction, then the rendered table, then the question lines, then the prompt and a final line break |
| GoogleGenerativeAI.Prompt | src/main/java/com/gperzal/gemini/GoogleGenerativeAI.java:46-58 | each overload sends the client's model and key with the text for its kind of data |
| GoogleGenerativeAI.DegradesToPlain | src/main/java/com/gperzal/gemini/GoogleGenerativeAI.java:64-103 | the request text is the plain prompt exactly when there is no data, a null, missing or empty file, or a null or empty list |
| GeminiRequest.Request.ToBody | src/main/java/com/gperzal/gemini/GeminiRequest.java:11-17 | the payload has the one-key, one-element shape at every level, and its only text is the prompt |
| GeminiRequest.BodyText | src/main/java/com/gperzal/gemini/GeminiRequest.java:12-14 | a text is read out exactly when the payload has the request shape |
| GeminiRequest.BodyDeterminedByText | src/main/java/com/gperzal/gemini/GeminiRequest.java:11-17 | any payload of that shape is exactly `toBody` of its own text (the shape carries nothing else) |
| GeminiRequest.ToBodyInjective | src/main/java/com/gperzal/gemini/GeminiRequest.java:11-17 | different prompts build different payloads |
| Json.PathKey | src/main/java/com/gperzal/gemini/GeminiResponse.java:21-22 | `path(field)` is a node exactly when the node is an object with that field, and then it is the field's value; otherwise MissingNode |
| Json.PathIndex | src/main/java/com/gperzal/gemini/GeminiResponse.java:23 | `path(index)` is a node exactly when the node is an array and the index is in range, and then it is that element |
| Json.AsText | src/main/java/com/gperzal/gemini/GeminiResponse.java:25 | `asText(default)` is the default for MissingNode and JSON null, and the string itself for a text node |
| GeminiResponse.FromObject | src/main/java/com/gperzal/gemini/GeminiResponse.java:14 | deserialisation keeps the `candidates` property when present (absent leaves it null) and ignores the rest |
| GeminiResponse.NoCandidatesSentinel | src/main/java/com/gperzal/gemini/GeminiResponse.java:17-18 | absent, null, non-array or empty `candidates` give `"No candidates found."` |
| GeminiResponse.FirstText | src/main/java/com/gperzal/gemini/GeminiResponse.java:16-26 | total: `"No candidates found."` without a usable first candidate; otherwise the chain of `path` steps agrees with explicit nested presence checks: the leaf's text when the whole path exists, `"No text available"` otherwise |
| GeminiResponse.FirstTextOfString | src/main/java/com/gperzal/gemini/GeminiResponse.java:20-25 | a string at `candidates[0].content.parts[0].text` is returned unchanged |
| GeminiResponse.FirstTextMissingStep | src/main/java/com/gperzal/gemini/GeminiResponse.java:20-25 | any missing step, or a JSON null text, gives `"No text available"` |
| GeminiResponse.OnlyFirstCandidate | src/main/java/com/gperzal/gemini/GeminiResponse.java:20 | candidates after the first do not change the result |
| GeminiResponse.OnlyFirstPart | src/main/java/com/gperzal/gemini/GeminiResponse.java:20-23 | parts after the first, the other fields of the candidate and of its content, and the later candidates do not change the result: two such responses agreeing only on the first part give the same text |
| GeminiResponse.RequestRoundTrip | src/main/java/com/gperzal/gemini/GeminiRequest.java:11-17 | a request's `contents[0]`, placed as the first candidate's `content`, is read back by `firstText` as the prompt |

## Left out

- `GeminiClient.send`: HTTP transport, JSON serialisation and deserialisation, timeouts, status handling, and restoring the interrupt flag. These are I/O and threading. The model stops at the `Call` value: the model name, API key and request that would be sent.
- `connect()`: it reads the environment and the `.env` file, which is configuration I/O. `NewClient` takes the two values it would find, with None standing for null.
- File access in `generate(String, File)` (`exists`, `length`, `Files.readString`). The file is given by its contents: None is a null or missing file, and `Some("")` is an empty one. The model equates `length() == 0` with empty contents.
- The catch-all at lines 89-90 of `GoogleGenerativeAI.java`, which rewraps every exception of the file variant as "Error reading file: …". Its try block covers the file reading and also both `send` calls (the fallback `generate(prompt)` and the templated request). So in the file variant a "Gemini API error: …" or "Error calling Gemini API: …" from `GeminiClient.send` comes out relabelled as "Error reading file: …". The model stops before `send` and has no exceptions, so this relabelling is lost along with `send` and the file I/O.
- `GeminiException` becomes the `ConfigError` datatype, with its two messages in `ErrorMessage`.
- `GeminiApplication.main` is the entry point, so it is not modelled.
- List items are strings. Calling `toString()` on arbitrary objects, and null elements (which print as "null"), are not modelled.
- Prompts are non-null strings. A null prompt is not modelled. On the plain and fallback paths it reaches `Map.of` in `toBody`, which throws. With a non-empty list (the concatenation at line 99) or a non-empty file (`formatted` at line 85), it becomes the text "null" and nothing throws.
- Json.AsText: Jackson's text form of a number is not derived. A number node carries the text Jackson would print for it.
- The getters `getModel`/`getApiKey` are the `Client` fields. The `candidates` setter only serves deserialisation.
- The Markdown table has no CSV quoting or escaping, as in the source. A comma inside a quoted field splits that field.
