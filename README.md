# Dynamic provider scripts — a Dafny model

This project models the two pieces of logic in a small browser library for
third-party widget scripts.

- **Provider-script generation** (`getProviderScript`), in module
  `ProviderScripts` (`provider_scripts.dfy`). The provider name is
  lower-cased and looked up in a fixed table of four generators:
  `helpscout`, `clarityms`, `proprofs_livechat` and `custom`. The three
  vendor generators splice the caller's id, verbatim, into a fixed template.
  Each template is stored as a prefix constant and a suffix constant, copied
  character for character from the source's template literals. The `custom`
  generator returns its argument unchanged. A name outside the table makes
  the source call an undefined generator. That throws, the surrounding
  `try` catches it, and the function returns `""`. The model writes this as
  `Invoke` returning `None`, which `GetProviderScript` maps to `""`.
- **Script injection** (the effect body and cleanup of `useDynamicScripts`),
  in module `DynamicScripts` (`dynamic_scripts.dfy`). A `Document` object
  holds two fields. `head` is the sequence of script children of
  `document.head`. `registry` is the module-level set `injectedScripts`.
  `Attach` is the effect's `forEach` loop. `Cleanup` is the loop of the
  cleanup closure. The effect's framework scheduling is not modelled, so
  both are plain methods that a caller invokes.

The model follows the code as written, not the comments. Nothing ever adds
to the registry, so it stays empty on a fresh page. As a result, only empty
strings are skipped, duplicates are appended again, and every element gets
the id `ac-dynamic-script-1`. The cleanup only removes elements marked
`data-dynamic="true"`, and attach never sets that marker. Lemmas state
these consequences. A corrected attach and cleanup are modelled next to the
as-written ones (see "## Findings").

How the cleanup query is modelled: `head` holds the script children of the
head in document order. So the selector
`script[data-dynamic="true"]:nth-of-type(k)` picks the element at position
`k - 1` of `head`, and only if that element is marked. The query runs again
on every iteration. Once an element has been removed, later positions refer
to the shortened head; the model does the same.

## Model

| member | source | states |
|---|---|---|
| `ProviderScripts.Lower` | src/injectScripts.ts:55 | Lower-casing keeps the length, maps every character through ASCII lower-casing, and leaves no upper-case letter |
| `ProviderScripts.LowerOfLower` | src/injectScripts.ts:55 | A string with no upper-case letter is its own lower-case form |
| `ProviderScripts.LowerIdempotent` | src/injectScripts.ts:55 | Lower-casing twice is the same as lower-casing once |
| `ProviderScripts.Apply` | src/injectScripts.ts:26-51 | A template generator's output is prefix, then the argument verbatim, then suffix, with the lengths adding up; the custom generator returns its argument unchanged |
| `ProviderScripts.GetProviderScript` | src/injectScripts.ts:54-65 | Never fails: a lower-cased name outside the table gives `""`; `custom` gives the caller's text back; a vendor name gives a script that contains the id and is as long as the template plus the id |
| `ProviderScripts.CatalogKeys` | src/injectScripts.ts:26-52 | The table's keys are exactly `helpscout`, `clarityms`, `proprofs_livechat` and `custom` |
| `ProviderScripts.CatalogSize` | src/injectScripts.ts:26-52 | The table has exactly four entries |
| `ProviderScripts.CatalogLower` | src/injectScripts.ts:26-52 | Every key is already lower case, so each key can be reached by some provider name |
| `ProviderScripts.CaseInsensitive` | src/injectScripts.ts:55 | The script for a name equals the script for the name's lower-case form |
| `ProviderScripts.SameLowerSameScript` | src/injectScripts.ts:55 | Two names with the same lower-case form give the same script |
| `ProviderScripts.HelpScoutCaseExample` | src/injectScripts.ts:55 | `"HelpScout"` and `"helpscout"` give the same script for id `"42"` |
| `ProviderScripts.CustomReturnsInput` | src/injectScripts.ts:48-51 | For any name that lower-cases to `custom`, the result is the caller's text unchanged, whatever the text is |
| `ProviderScripts.EmptyScript` | src/injectScripts.ts:54-65 | The result is `""` exactly when the lower-cased name is outside the table, or the name is `custom` with an empty text |
| `ProviderScripts.UnsupportedIsEmpty` | src/injectScripts.ts:56-65 | A lower-cased name other than the four keys yields `""`, with no failure |
| `ProviderScripts.VendorScript` | src/injectScripts.ts:27-46 | For each vendor key, the result is that template's prefix, the id verbatim, and its suffix; its length is the template's length plus the id's; and it contains the id |
| `ProviderScripts.HelpScoutScript` | src/injectScripts.ts:27-31 | The HelpScout script is its fixed prefix, the id unescaped, and its fixed suffix; it contains the id and has exactly that length |
| `ProviderScripts.ClarityScript` | src/injectScripts.ts:32-38 | The same facts for the Microsoft Clarity template |
| `ProviderScripts.ProProfsScript` | src/injectScripts.ts:39-46 | The same facts for the ProProfs live-chat template |
| `ProviderScripts.VendorIdRecoverable` | src/injectScripts.ts:27-46 | For one vendor name, different ids give different scripts: the id can be read back from the script |
| `DynamicScripts.NatToString` | src/useDynamicScripts.ts:24 | The counter is written as a non-empty string of decimal digits with no leading zero |
| `DynamicScripts.ParseNatToString` | src/useDynamicScripts.ts:24 | Reading the decimal string back gives the counter |
| `DynamicScripts.ScriptIdInjective` | src/useDynamicScripts.ts:22-25 | Ids `ac-dynamic-script-<n>` for different registry sizes are different |
| `DynamicScripts.ScriptId` | src/useDynamicScripts.ts:22-25 | The id is `ac-dynamic-script-` followed by the registry's size plus one in decimal; its contract says the id starts with that prefix, and `ScriptIdInjective` says different sizes give different ids |
| `DynamicScripts.Skipped` | src/useDynamicScripts.ts:16 | The skip test: a text is skipped when it is empty (the only falsy string) or already in the registry; no contract of its own, its effect is stated by `SkippedAddsNothing` and `KeptMembers` |
| `DynamicScripts.NewScript` | src/useDynamicScripts.ts:21-28 | The element the loop builds: the id from the registry's size, the text, `async` set, type `text/javascript`, no marker; no contract of its own, stated by `AppendedElements` |
| `DynamicScripts.Kept` | src/useDynamicScripts.ts:15-30 | The texts the attach loop accepts, in list order; its contract says there are at most as many as in the list and none is empty or registered; `KeptCount`, `KeptMembers` and `KeptConcat` state the rest |
| `DynamicScripts.Appended` | src/useDynamicScripts.ts:15-30 | The elements the attach loop appends, one per accepted text; no contract of its own, stated by `AppendedElements` and `AppendedSameId` |
| `DynamicScripts.CleanupStep` | src/useDynamicScripts.ts:35-38 | One cleanup iteration: the marked script at the query's position is removed if it is there; its contract says at most one element goes |
| `DynamicScripts.Cleaned` | src/useDynamicScripts.ts:34-39 | The head after the cleanup's iterations, one per list index; no contract of its own, stated by `CleanedSub`, `CleanupKeepsUnmarked` and `CleanupWithoutMarks` |
| `DynamicScripts.CleanedSub` | src/useDynamicScripts.ts:33-40 | Cleanup only removes: what is left is a sub-multiset of the old head, and the head never grows |
| `DynamicScripts.KeptConcat` | src/useDynamicScripts.ts:15-30 | The texts accepted from two lists one after the other are those accepted from each, in list order |
| `DynamicScripts.SkippedAddsNothing` | src/useDynamicScripts.ts:16-19 | An empty or already-registered text appends nothing, wherever it stands in the list |
| `DynamicScripts.EmptyAddsNothing` | src/useDynamicScripts.ts:16-19 | An empty string in the list appends nothing |
| `DynamicScripts.KeptCount` | src/useDynamicScripts.ts:15-30 | A text is appended once per occurrence in the list, unless it is empty or registered, in which case it is never appended |
| `DynamicScripts.KeptMembers` | src/useDynamicScripts.ts:16-19 | A text is appended exactly when it is in the list, non-empty and not registered |
| `DynamicScripts.AppendedElements` | src/useDynamicScripts.ts:21-29 | One element per accepted text; each has that text, `async` set, type `text/javascript`, no data-dynamic marker, and id `ac-dynamic-script-` followed by the registry's size plus one |
| `DynamicScripts.AppendedSameId` | src/useDynamicScripts.ts:22-25 | All elements appended by one attach share one id; with an empty registry it is `ac-dynamic-script-1` |
| `DynamicScripts.AttachAppendsDuplicates` | src/useDynamicScripts.ts:4-30 | On a fresh page, attaching `["a", "a"]` appends two elements, both with id `ac-dynamic-script-1` |
| `DynamicScripts.AttachMixedExample` | src/useDynamicScripts.ts:15-30 | On a fresh page, attaching `["a", "", "a", "b"]` appends three elements, for `"a"`, `"a"` and `"b"` |
| `DynamicScripts.CleanupKeepsUnmarked` | src/useDynamicScripts.ts:33-40 | Cleanup removes only marked elements: the unmarked elements, in order, are unchanged; at most one element goes per list index |
| `DynamicScripts.CleanupWithoutMarks` | src/useDynamicScripts.ts:34-38 | A head with no marked element is left exactly as it was |
| `DynamicScripts.AttachThenCleanupKeepsAppended` | src/useDynamicScripts.ts:21-40 | Whatever the head held, attach then cleanup keeps every appended element: the unmarked elements afterwards are the old head's unmarked elements followed by all appended ones |
| `DynamicScripts.AttachThenCleanupLeaks` | src/useDynamicScripts.ts:21-40 | The special case of a head with no marked element: attach then cleanup leaves the head exactly as attach made it |
| `DynamicScripts.CleanupSkipsShifted` | src/useDynamicScripts.ts:34-38 | Even with two marked elements at the front, a two-index cleanup removes only the first, because the second moves into the already-visited position |
| `DynamicScripts.Document.constructor` | src/useDynamicScripts.ts:4 | A page starts with its own head and an empty registry |
| `DynamicScripts.Document.Attach` | src/useDynamicScripts.ts:15-30 | The head becomes the old head followed by the elements for the accepted texts, in list order; the registry is unchanged |
| `DynamicScripts.Document.Cleanup` | src/useDynamicScripts.ts:33-40 | The head becomes the result of the positional removal steps, one per list index; the registry is unchanged |
| `DynamicScripts.DedupRegistry` | src/useDynamicScripts.ts:15-30 | Corrected attach: the registry afterwards is the old registry plus every non-empty text of the list |
| `DynamicScripts.DedupElems` | src/useDynamicScripts.ts:15-30 | Corrected attach: the k-th new element is marked, has id number registry size plus k plus one, and holds a non-empty text that was not registered before; the registry grows by one per element |
| `DynamicScripts.DedupDistinctTexts` | src/useDynamicScripts.ts:15-30 | Corrected attach: no two new elements hold the same text |
| `DynamicScripts.DedupRunDistinctIds` | src/useDynamicScripts.ts:22-25 | Corrected attach: no two new elements share an id |
| `DynamicScripts.DedupIdempotent` | src/useDynamicScripts.ts:15-30 | Corrected attach: attaching the same list a second time appends nothing and leaves the registry as it is |
| `DynamicScripts.DedupMixedExample` | src/useDynamicScripts.ts:15-30 | Corrected attach: on a fresh page, `["a", "", "a", "b"]` appends two elements, `"a"` and then `"b"` |
| `DynamicScripts.ReleasedMembers` | src/useDynamicScripts.ts:33-40 | Corrected cleanup: it keeps exactly the elements that are not both marked and holding a text of the list |
| `DynamicScripts.DedupAttachThenRelease` | src/useDynamicScripts.ts:33-40 | Corrected attach followed by corrected cleanup of the same list restores the head, when the head held no marked element with a text of that list |
| `DynamicScripts.Document.AttachDeduplicated` | src/useDynamicScripts.ts:15-30 | Corrected attach: the head and registry become those of the deduplicating run on the old registry |
| `DynamicScripts.Document.CleanupDeduplicated` | src/useDynamicScripts.ts:33-40 | Corrected cleanup: the head loses exactly its marked elements whose text is in the list; the registry is unchanged |

## Findings

| source | as written | input that shows it | evidently intended | confidence | as-written member | corrected member |
|---|---|---|---|---|---|---|
| src/useDynamicScripts.ts:16-29 | `injectedScripts` is read but nothing is ever added to it, so nothing is deduplicated and every id uses the same number | `Attach(["a", "a"])` on a fresh page appends two elements, both `ac-dynamic-script-1` | add each injected text to the registry, so every text is injected once per page and ids count up | not executed | `DynamicScripts.AttachAppendsDuplicates` | `DynamicScripts.DedupIdempotent` |
| src/useDynamicScripts.ts:33-40 | cleanup looks for `data-dynamic="true"`, which insertion never sets, and indexes by position in a head that shrinks as it goes | `Attach(["x"])` then `Cleanup(["x"])` on an empty head leaves the `"x"` element in place | mark the inserted elements and remove those very elements on teardown | not executed | `DynamicScripts.AttachThenCleanupLeaks` | `DynamicScripts.DedupAttachThenRelease` |

The source's comments promise more than its code does. The comment at
src/useDynamicScripts.ts:3 says the set tracks injected scripts, and the one
at :17 says already-injected scripts are skipped. Yet no line adds to the
set. The comment at :11 says the hook cleans the scripts up on unmount, but
the cleanup looks for a marker that insertion never sets. The as-written
members model the code. The corrected members register each text and mark
their elements (`dataDynamic` true). Their cleanup removes elements by
marker and text, not by position.

## Left out

- React's `useEffect` scheduling and its dependency-array comparison are not modelled. `Attach` and `Cleanup` are called explicitly.
- DOM semantics are abstracted to the `head` sequence: element creation, `appendChild`, CSS selector matching and `remove()`. `querySelector` searches all descendants of the head, but the model only sees script elements that are direct children of the head.
- The syntax check in `validateCustomScript` (`new Function`) is a call into the JavaScript engine whose only effect is logging, so it is treated as a no-op.
- `console.log` and `console.error` output is diagnostic I/O and is omitted.
- `Lower` models `toLowerCase` as ASCII lower-casing only; Unicode case mapping is not modelled.
- The JavaScript prototype chain is not modelled. The source's table is a plain object literal, so a name such as `constructor` finds the inherited `Object` function and returns a String wrapper instead of `""`. The model's table has exactly the four keys.
- The vendor snippets are opaque string constants; their JavaScript meaning is not interpreted.
- The build configuration (`tsup.config.ts`) is not part of this model.
- What an appended script does when it runs is not modelled. The Clarity and ProProfs snippets immediately insert a loader script, and the HelpScout snippet inserts one at once if the document is already loaded and otherwise on the load event; each goes before the document's first script, which is in the head whenever the head holds one. So `Document.Attach`'s contract describes the head as attach leaves it, before any appended script has run.
