# Image monitor: change detection, in Dafny

The image monitor keeps a fixed list of image URLs. Each run goes through the same steps:

- It loads a table from URL to content hash from its state file.
- It fetches every URL in list order and hashes each body that came back with status 200.
- It classifies each URL:
  - **new** when the table has no entry for it;
  - **changed** when the stored hash differs from the new one;
  - **unchanged** when the stored hash equals the new one;
  - **failed** on a non-200 status, a timeout, another request error or any other exception.
- It updates the table in place.
- If at least one URL was new or changed, it sends one alert. The alert lists those URLs and adds an error count when something failed.
- Finally it saves the table.

This project models that pass as follows:

- `CheckImages.CheckUrls` is a method whose loop follows the source loop. Its loop invariant ties it to a specification fold, `CheckImages.Scan`, over the URLs checked so far.
- `CheckImages.Step` is one step of that fold.
- `CheckImages.LoadState` models the fallback of the state-file loader.
- The alert text is built exactly as the source builds it, and a lemma reads it back line by line.
- `Text` holds the string helpers the messages need. These are Python's `str()` of a count and `"\n".join`, plus a line splitter used to state what the alert says.

The environment is represented as inputs:

- Fetching a URL is an `Outcome`. `fetched[i]` is what fetching `URLS[i]` came to: `Responded(status, body)`, `TimedOut`, `RequestFailed(text)` or `Crashed(text)`.
- SHA-256 is a function parameter `digest: Bytes -> Hash` that the model never looks inside.
- Reading the state file is a `StoredState`: `Missing`, `Corrupt` or `Parsed(table)`.
- The notifier is the out-parameter `sent`. It holds the messages handed to `send_sms` in this run.
- The saved table is the out-parameter `state`.

Two further points about the code:

- The changed URLs are a list in URL order; a URL listed twice in `URLS` could appear twice.
- `check_urls` ignores the success flag `send_sms` returns, so the model has no notifier result.

## Model

| member | source | states |
|---|---|---|
| `CheckImages.LoadState` | scripts/check_images.py:23-33 | A missing file and a file whose JSON fails to parse both give the empty table. A parsed file gives its table unchanged. |
| `CheckImages.ChangedFromEmpty` | scripts/check_images.py:89-92 | Starting from an empty table, a URL ends up in the changed list exactly when some fetch of it succeeded. |
| `CheckImages.FreshStartReportsAll` | scripts/check_images.py:25-33 | After a missing or corrupt state file, for any URL list, the changed URLs are exactly the successfully fetched ones, and those are the only keys of the new table. |
| `CheckImages.ErrorText` | scripts/check_images.py:79-111 | The error text per kind of failure: a bad status is named in decimal after "Failed with status ", with no leading zero, and reads back as that status; a timeout gives "Request timeout"; another request failure gives its own text; any other exception gives its text after "Unexpected error: ". |
| `CheckImages.ErrorEntry` | scripts/check_images.py:82 | An error line starts with the URL and ": ", and the rest is the error text. |
| `CheckImages.Classify` | scripts/check_images.py:79-98 | Exactly one verdict per fetch. It is failed exactly when the fetch did not succeed, new exactly when it succeeded and the URL has no entry, changed exactly when the stored hash differs, and unchanged exactly when it is equal. New and changed carry the new hash. |
| `CheckImages.Step` | scripts/check_images.py:79-111 | Checking one URL works as follows. A failed fetch adds exactly one error line, `url: text`, and leaves the table and the changed list alone. A successful fetch never adds an error line. An absent URL, or one whose stored hash differs, is appended to the changed list and its entry becomes the new hash. An equal hash changes nothing. |
| `CheckImages.Scan` | scripts/check_images.py:73-111 | Every URL adds at most one line, to the changed list or to the error list, so together they hold no more lines than there are URLs. |
| `CheckImages.CheckUrls` | scripts/check_images.py:65-139 | The run's table, changed list and error list are those of `Scan` from the loaded table. The changed list is exactly the URLs whose fetch differs from the loaded table, in list order. The error lines are one per failed fetch, in order. The saved keys are the loaded keys plus the successfully fetched URLs. No URL appears twice in the changed list. Exactly one alert, `Alert(changed, error count)`, is sent when the changed list is non-empty, and none otherwise. |
| `CheckImages.ScanEntry` | scripts/check_images.py:79-96 | A key's final entry is the hash of its last successful fetch, if it had one. Otherwise it is exactly its entry before the run, and it stays absent if it was absent. |
| `CheckImages.ScanKeys` | scripts/check_images.py:89-96 | The final table's keys are the starting keys together with the URLs fetched successfully. |
| `CheckImages.ScanErrors` | scripts/check_images.py:79-83 | The error list does not depend on the table or on the digest. It has one line per failed fetch, in URL order. |
| `CheckImages.ScanChanged` | scripts/check_images.py:88-98 | For a URL list without repeats, the changed list is exactly the URLs whose successful fetch is absent from the starting table or hashes differently, in list order. |
| `CheckImages.ChangedDistinct` | scripts/check_images.py:88-98 | For a URL list without repeats, no URL appears twice in the changed list, and every changed URL is on the URL list, so the alert names each changed URL once. |
| `CheckImages.ChangedInOrder` | scripts/check_images.py:73-96 | For any URL list, the changed list is a subsequence of the URL list. |
| `CheckImages.RerunIsQuiet` | scripts/check_images.py:89-98 | A run starts from a table that already holds the hash of every successful fetch. Then it reports no change, keeps the table, and its error list holds only the failed fetches. |
| `CheckImages.SecondRunFindsNoChange` | scripts/check_images.py:73-98 | Two runs in a row over the same responses, with no URL listed twice. The second run reports no change, leaves the table as the first run left it, and reports the same errors. |
| `CheckImages.UrlsDistinct` | scripts/check_images.py:14-19 | The monitored URL list has no repeats. |
| `CheckImages.Alert` | scripts/check_images.py:119-123 | For a non-empty changed list, the alert is its lines joined by newlines: the four header lines, one `• url` line per changed URL, and, only when there were errors, a blank line and the error-count line. |
| `CheckImages.ComposeAlert` | scripts/check_images.py:119-123 | Building the message piece by piece, as the source does with `+=`, gives exactly the text `Alert` defines. |
| `CheckImages.AlertReadsBack` | scripts/check_images.py:119-123 | Splitting the alert at newlines gives back exactly those lines. The changed URLs therefore appear each on their own bullet line, in order. The error-count line is present exactly when the count is positive. |
| `Text.NatToString` | scripts/check_images.py:80 | A status code or count is rendered as a non-empty string of decimal digits with no leading zero. |
| `Text.NatToStringRoundTrip` | scripts/check_images.py:123 | Reading the rendered digits back gives the number. |
| `Text.JoinLines` | scripts/check_images.py:120 | For a non-empty list, the joined text keeps every character of every line, with exactly one newline between neighbours, and starts with the first line. `JoinAppend` and `SplitJoin` state how joins compose and that splitting undoes them. |
| `Text.JoinAppend` | scripts/check_images.py:120 | Joining two non-empty runs of lines with a newline between them is the same as joining their concatenation. |
| `Text.SplitJoin` | scripts/check_images.py:120 | Splitting a newline-joined list of lines, none of which holds a newline, gives the list back. |

## Left out

- HTTP fetching with its 30-second timeout is network I/O. Each fetch is an input `Outcome`.
- The SHA-256 hex digest is a foreign library call. It is the uninterpreted parameter `digest`.
- Twilio delivery in `send_sms`, with its environment-variable credentials, is left out. Handing a message to it is recorded in `sent`, and its success flag is ignored, as in `check_urls`.
- Writing the state file and reading and decoding its JSON are file I/O. Only the fallback decision in `load_state` is modelled, and the table to be saved is returned.
- A state file that cannot be read or decoded as text (an `OSError` or a `UnicodeDecodeError`) makes `load_state` raise and ends the run. `StoredState` does not model that case.
- A state file whose JSON is not an object of strings is not modelled either; `load_state` returns it as it is and the per-URL `try` catches what follows. A JSON array or string that does not contain the URL (for a string, as a substring) makes a status-200 URL count as new, so it is appended to `changed`, and then the assignment into the array or string raises, so an "Unexpected error" line is added too. That URL is then in both lists, which breaks the at-most-one-line-per-URL bound `CheckImages.Scan` proves, and the value is saved back unchanged, so this repeats on every run. An array or string that does contain the URL makes the lookup of the stored hash raise, so only an error line is added. A JSON number, null or boolean makes the membership test raise, which gives one error line per status-200 URL. An object with non-string values raises nothing; such a value never equals the new hash, so the URL is reported as changed and its value overwritten.
- Which exception class a failure comes from is represented only through the error text it produces.
- All console output is left out: the banners, per-URL progress lines, the error report and the summary.
- test_local.py is an interactive console menu that patches `send_sms` at run time. It is not part of this model.
- HTTP status codes are modelled as non-negative integers.
- CheckImages.ScanChanged: stated only for URL lists without repeats. With a repeated URL, a later occurrence is compared against the hash the earlier one recorded. `ScanEntry` and `ChangedInOrder` cover that general case.
- CheckImages.SecondRunFindsNoChange: stated only for URL lists without repeats, which holds for the monitored list (`UrlsDistinct`).
- CheckImages.AlertReadsBack: assumes no URL contains a newline. The alert text itself is modelled exactly for every URL.
