# TodoMVC fixture loader — a Dafny model

The TodoMVC end-to-end suite (`src/test/java/com/main/TodoMVCTest.java`) drives a
hosted TodoMVC page through a browser driver. The one piece of logic it implements
itself is the fixture loader. `given(Task...)` serialises a list of fixture tasks
(title text plus `ACTIVE`/`COMPLETED`) into one JavaScript statement,
`localStorage.setItem('todos-troopjs', '[ ... ]');`. The bracketed body is meant to be a
JSON array (sections 4 and 5 of RFC 8259) of `{"completed":<flag>, "title":"<text>"}`
objects. `givenAtAll(TaskType, String...)` builds the task array for a list of titles that
share one type, then hands it to `given`.

The model has four modules:

- `Fixture` (`fixture.dfy`): the data model. `TaskType`, `Task` (a value: the Java
  object is never changed after construction), `ATask`, and the list `AllOfType` that
  `givenAtAll` builds.
- `Script` (`script.dfy`): the specification. `Payload(tasks)` is the prefix, then the
  elements joined by single commas, then the suffix. `Accumulate` is what the source's
  loop has built before truncation. Lemmas cover the frame, the empty case, the trailing
  comma, order and the flag mapping.
- `Loader` (`loader.dfy`): the two source methods as imperative Dafny. `Given` runs the
  accumulating `for` loop, drops the last character when the list is non-empty, and
  appends the suffix. `GivenAtAll` fills a fresh `array<Task>` with an index loop and
  calls `Given`. Each is proved to return exactly `Payload` of its tasks.
- `ScriptDecode` (`decode.dfy`): a reader that parses the script back into tasks. It
  accepts only titles that need no escaping. A title must not contain `"`, `'` or `\`,
  which delimit or escape the JSON string or the JavaScript literal. It must not contain
  a control character U+0000–U+001F either: section 7 of RFC 8259 requires those to be
  escaped, and a raw line break inside a JavaScript string literal is a syntax error.
  Titles are pasted in verbatim, so the round trip holds exactly for these safe titles.
  The module also shows a quote in a title forging a second element.

## Model

| member | source | states |
|---|---|---|
| `Fixture.ATask` | src/test/java/com/main/TodoMVCTest.java:394-396 | the fixture carries exactly the given text and type |
| `Fixture.AllOfTypeTexts` | src/test/java/com/main/TodoMVCTest.java:408-413 | givenAtAll's tasks have the given texts, in order and equal in number, and every one has the shared type |
| `Fixture.AllOfTypeCompletedCount` | src/test/java/com/main/TodoMVCTest.java:408-413 | with a shared type, the number of completed tasks is the number of texts for COMPLETED and zero for ACTIVE |
| `Script.PayloadFrame` | src/test/java/com/main/TodoMVCTest.java:427-435 | every script starts with exactly `localStorage.setItem('todos-troopjs', '[` and ends with exactly `]');` |
| `Script.EmptyPayload` | src/test/java/com/main/TodoMVCTest.java:427-435 | no tasks give exactly `localStorage.setItem('todos-troopjs', '[]');`, with no separator and no character removed |
| `Script.AccumulateIsJoinPlusComma` | src/test/java/com/main/TodoMVCTest.java:429-434 | for a non-empty list, the loop's text is the comma-joined elements plus one trailing comma, so the truncation removes exactly that comma |
| `Script.JoinCommaCons` | src/test/java/com/main/TodoMVCTest.java:429-434 | the comma-joined body splits after its first element as well as before its last |
| `Script.JoinElementsSnoc` | src/test/java/com/main/TodoMVCTest.java:429-431 | appending a task to a non-empty list adds exactly one comma and that task's element at the end of the body, for any titles (one element per task, in input order); the first task adds no comma, since one task's body is its element alone |
| `Script.FlagMapping` | src/test/java/com/main/TodoMVCTest.java:430 | an element starts `{"completed":true` exactly when its task is COMPLETED and `{"completed":false` exactly when it is ACTIVE |
| `Script.TrueFlagsCountCompleted` | src/test/java/com/main/TodoMVCTest.java:430 | the number of `"completed":true` elements equals the number of COMPLETED tasks |
| `Loader.Given` | src/test/java/com/main/TodoMVCTest.java:426-435 | the script built by the loop, the truncation and the closing text equals `Payload` of the task array |
| `Loader.AppendElement` | src/test/java/com/main/TodoMVCTest.java:429-431 | the text one loop iteration appends, written as the source writes it (`{"completed":`, the flag chosen by `ACTIVE == taskType`, `, "title":"`, the text, `"},`), extends the accumulated text by exactly the next task's element and one comma |
| `Loader.CloseScript` | src/test/java/com/main/TodoMVCTest.java:432-435 | after the loop, dropping the last character only when there was a task and appending `]');` completes `Payload` |
| `Loader.GivenAtAll` | src/test/java/com/main/TodoMVCTest.java:408-413 | the array filled by the index loop holds one task per text, in order and of the shared type, and the result is that list's script |
| `ScriptDecode.FirstQuote` | src/test/java/com/main/TodoMVCTest.java:430 | the index found is the first double quote, or the length when there is none: where a pasted title ends for a JSON reader |
| `ScriptDecode.DecodeFlag` | src/test/java/com/main/TodoMVCTest.java:430 | a flag read back re-serialises to the text it was read from |
| `ScriptDecode.DecodeFlagOfFlag` | src/test/java/com/main/TodoMVCTest.java:430 | reading a serialised flag gives back its task type and what followed it |
| `ScriptDecode.DecodeElement` | src/test/java/com/main/TodoMVCTest.java:430 | whatever one element decodes to re-serialises to exactly the consumed text, and its title is safe |
| `ScriptDecode.DecodeElementOfElement` | src/test/java/com/main/TodoMVCTest.java:430 | an element with a safe title decodes to its own task, whatever text follows |
| `ScriptDecode.DecodeElements` | src/test/java/com/main/TodoMVCTest.java:429-434 | a decoded comma-separated run is non-empty and re-joins to exactly the input |
| `ScriptDecode.DecodeElementsOfJoin` | src/test/java/com/main/TodoMVCTest.java:429-434 | the joined elements of a non-empty list with safe titles decode to that list, in order |
| `ScriptDecode.Decode` | src/test/java/com/main/TodoMVCTest.java:426-435 | any script the reader accepts is exactly the payload of the tasks it returns, and their titles are safe |
| `ScriptDecode.RoundTrip` | src/test/java/com/main/TodoMVCTest.java:426-435 | a task list is read back exactly from its script if and only if no title holds `"`, `'`, `\` or a control character; the "only if" half holds because the reader refuses those characters; a forged script is exhibited only for `"` (`QuoteInTitleForgesElements`) |
| `ScriptDecode.LineBreakInTitleNotReadBack` | src/test/java/com/main/TodoMVCTest.java:430 | a title holding a raw line break, pasted unescaped, is not read back |
| `ScriptDecode.PayloadInjective` | src/test/java/com/main/TodoMVCTest.java:426-435 | for safe titles, different task lists give different scripts |
| `ScriptDecode.QuoteInTitleForgesElements` | src/test/java/com/main/TodoMVCTest.java:430 | with no escaping, one active task whose title holds `"},{"completed":true, "title":"` gives the same script as two tasks, the second completed |
| `ScriptDecode.ForgedElement` | src/test/java/com/main/TodoMVCTest.java:430 | the forged title's single element is textually two elements joined by a comma |

## Left out

- The browser I/O is not modelled: `executeJavaScript` of the script, `refresh` (lines 436-437), `open` in `openPage`, and `localStorage.clear()` in `clearData` (lines 24-32). The model stops at the string that `given` passes to the browser.
- `givenAtActive` and `givenAtCompleted` (lines 398-406, 416-424) are not modelled. They call `given`/`givenAtAll` and then click a filter link, which is browser I/O.
- The interaction helpers (`add`, `startEdit`, `delete`, `toggle`, `toggleAll`, `clearCompleted`, `filter*`), the assertion helpers (`assertTasks`, `assertVisibleTasks`, `assertItemLeft`, …) and the `@Test` scenarios are not modelled. They are one-line wrappers over DOM queries, and they check the hosted application, whose code is not part of this repository.
- Java `null` is not modelled. A null array, a null `Task` or a null title (which Java would print as `null`) cannot occur in the model. A null `taskType` would serialise as `true`; the model has only the two enum values.
- Java strings are UTF-16 code units, while Dafny `char` is a Unicode scalar value. A character outside the Basic Multilingual Plane is two Java `char`s but one Dafny `char`. That affects only the final one-character truncation, which always removes an ASCII comma. A title holding an unpaired UTF-16 surrogate cannot be represented as a Dafny string, so such titles are outside the model. The serialiser would still paste one verbatim.
- The source does no JSON or JavaScript escaping, and neither does the model. `RoundTrip` names the titles for which the script is still read back correctly. `QuoteInTitleForgesElements` shows what goes wrong otherwise.
- `given` does not navigate to the application page. `openPage` opens it once per scenario (lines 24-27), so the model has no navigation step.
