# Terminal monitoring dashboard: a Dafny model of its state engine

The dashboard is a terminal program in a single Rust file, `src/main.rs`. It shows three tabs:

- **System:** CPU, RAM and network charts.
- **Docker:** containers or images.
- **Kubernetes:** pods.

On every pass of its main loop it does three things:

- It slides new host samples into fixed-length windows.
- It sums the network interfaces' received and transmitted readings and turns the change of those sums between ticks into a rate.
- It re-lists the inventory of the tab on screen, by running `docker` or `kubectl` and parsing their delimited output.

Key presses move a table cursor, switch tabs and views, and drive a six-field "create container" dialog. They also start `docker`/`kubectl` commands on the selected row.

This project models that engine functionally. It has these modules:

- `Base`: `Option`, plus a finished process's output given as text.
- `Text`: the Rust string operations the parsers use, written out:
  - `split`, `lines`, `split_whitespace` and `trim`;
  - `trim_end_matches` and `strip_suffix`;
  - `{}` and `{:02}` formatting of integers.
- `Listing`: `lines().filter_map(parse).collect()`. A failed command gives an empty list.
- `Records`: the container, image and pod records and their line parsers. Also the left join of `docker ps` with `docker stats`, and the split of the network I/O column.
- `Selection`: the table cursor and its wrapping moves.
- `History`: the host sample windows and the per-container usage history.
- `Rate`: the integer part of the network rate, meaning saturating differences between successive sums of the interfaces' readings.
- `Dialog`: the create-container form and its key edits.
- `CreateContainer`: the `docker run` argument vectors built by the dialog and by the four presets. They are checked against an independent reading of such a vector.
- `Uptime`: `format_duration`.
- `App`: the application state and one key press.
- `Tick`: one refresh pass.

External processes are data. A key press yields the list of commands it starts. The one command whose result is observed, the dialog's `docker run`, has that result passed in. Readings from the metrics library, the Unix time used to name preset containers, and the listing commands' output are all parameters.

Some behaviours of the code are easy to miss, and the model keeps them:

- **The refresh and the key handlers never clamp the selection themselves.**
  - The refresh replaces the lists and leaves the index alone. It does not clamp it to the new list length, and it does not clear it when the list becomes empty.
  - Every row key looks the index up with `Vec::get`, so a key handler given an index past the end does nothing.
  - `Tick.RefreshCanStrandSelection` and `App.StaleSelectionIgnored` state these two facts. Rendering the table on screen clamps the index before the next key is read (see "## Left out"), so on the visible table a user does not meet a stale index.
- **The initial selection is `Some(0)` for both tables**, although both start empty.
- **The Docker view toggle sets `Some(0)`** even when the newly shown list is empty.
- **Presets are fire-and-forget.** A failure to start one is never observed. Only the dialog waits for `docker run` and reports its error text.

## Model

| member | source | states |
|---|---|---|
| Selection.Next | src/main.rs:148-169 | Moving down does nothing on an empty list. Otherwise the result is a valid row: the next one, or the first one when nothing was selected or the cursor was on or past the last row. |
| Selection.Previous | src/main.rs:171-192 | Moving up does nothing on an empty list. Otherwise it wraps from the first row to the last and starts at the first when nothing was selected. A stale index only decreases by one. |
| Selection.Selected | src/main.rs:477-481 | A row is found exactly when the selection is set and inside the list, and it is the row at that index (`Vec::get`). |
| Selection.NextPreviousInverse | src/main.rs:194-228 | From any valid row, down then up and up then down both return to that row. |
| Selection.NextCycles | src/main.rs:194-210 | `k` moves down from row `i` land on row `(i + k) mod len`, so the cursor visits every row and comes back after `len` moves. |
| Selection.StaleSelectionMoves | src/main.rs:148-192 | From an index past the end of a non-empty list, down goes to the first row. Up goes to the index minus one, which is valid only if the cursor was exactly one past the end. |
| History.ZeroWindow | src/main.rs:253-256 | A host window starts as sixty zeros. |
| History.Slide | src/main.rs:295-302 | Removing the front and pushing a sample keeps the window length. The oldest sample is dropped, the rest shift forward in order, and the new sample is last. |
| History.SlideAllIsSuffix | src/main.rs:295-302 | After any number of ticks, a window is the last `len` values of its initial contents followed by every sample pushed: a fixed-length FIFO. |
| History.RecordSpec | src/main.rs:230-240 | `update_container_stats` creates the container's entry if it is missing and leaves every other entry alone. The new sample is last, and the earlier samples are the old history minus its oldest one once the history is full. |
| History.RecordManyKeepsLatest | src/main.rs:230-240 | A container's history is always the latest samples recorded, at most sixty, in order. |
| History.RecordAllKeys | src/main.rs:309-321 | After a tick's updates, the history has exactly the old IDs plus the updated ones. No ID is ever removed. |
| History.RecordAllLeavesOthers | src/main.rs:309-321 | A container that was not updated in the tick keeps its history unchanged. |
| History.RecordAllKeepsCapped | src/main.rs:236-239 | No history ever exceeds sixty samples. |
| History.RecordAllLast | src/main.rs:309-321 | After a tick, a container's newest sample is the sample of its last update in that tick. |
| Rate.SaturatingSub | src/main.rs:285-286 | The delta is how much the sum grew, or zero if it fell. |
| Rate.Step | src/main.rs:284-292 | There is a delta exactly when previous totals exist for both directions, and each direction saturates separately. The previous totals are replaced by the current ones in every case. |
| Rate.FirstTickHasNoRate | src/main.rs:258-292 | The first tick yields no rate and the second always yields one. |
| Rate.DeltasTelescope | src/main.rs:284-292 | While the received total only grows, the deltas over a run of ticks add up to its total growth. |
| Dialog.Empty | src/main.rs:103-113 | A new form has the focus on the first field and every field empty. |
| Dialog.Focused | src/main.rs:115-125 | Focus indexes 0-5 select the six fields in order. Any other index falls back to the image name. |
| Dialog.Set | src/main.rs:115-125 | Writing one field changes that field only and keeps the focus. |
| Dialog.FocusNext | src/main.rs:398-401 | Tab moves the focus forward modulo six and leaves the text alone. |
| Dialog.FocusPrevious | src/main.rs:402-409 | BackTab moves the focus back, from the first field to the sixth, and leaves the text alone. |
| Dialog.TypeChar | src/main.rs:410-415 | A character is appended to the focused field and to no other. |
| Dialog.Backspace | src/main.rs:416-418 | Backspace removes the last character of the focused field, does nothing to an empty one, and touches no other field. |
| Dialog.BackspaceUndoesTypeChar | src/main.rs:410-418 | Backspace after typing a character restores the form exactly. |
| Dialog.FocusMovesInverse | src/main.rs:398-409 | Tab and BackTab undo each other for every focus in range. |
| Dialog.FocusStaysInRange | src/main.rs:398-418 | No dialog edit moves a focus in range out of range. |
| Dialog.TypeTextAppends | src/main.rs:410-415 | Typing a text appends exactly that text to the focused field and changes nothing else. |
| CreateContainer.Values | src/main.rs:1308-1316 | An empty field contributes no values. A non-empty field contributes one value per comma-separated piece, in order. No value contains a comma, and none starts or ends with whitespace. |
| CreateContainer.Pairs | src/main.rs:1312 | Each value is preceded by its option flag, in order. |
| CreateContainer.RunArgs | src/main.rs:1294-1360 | There is no command exactly when the image name is empty. Otherwise the vector starts with `run -d`. |
| CreateContainer.RunArgsDecode | src/main.rs:1299-1360 | For an image name not starting with `-`, Docker reads the vector as exactly what the form asked for: the name, the trimmed `-p`/`-e`/`-v` values in order, the image, and the command's words. |
| CreateContainer.EmptyPieces | src/main.rs:1308-1338 | An empty field adds no option, but a lone comma yields two empty values and a trailing comma yields an extra empty value. |
| CreateContainer.ValuesOfJoin | src/main.rs:1308-1338 | Comma-separated values without commas or surrounding spaces read back as exactly those values. |
| CreateContainer.CreateMessage | src/main.rs:1295-1297 | An empty image name always gives the "Image name is required" error. |
| CreateContainer.CreateMessageReportsOutcome | src/main.rs:1362-1375 | The message reports a created container exactly when an image name was given and Docker exited successfully, and it then names that image. |
| CreateContainer.PresetArgsDecode | src/main.rs:1378-1442 | Each preset's vector asks Docker for a detached container named after the service and the time, with the service's environment, its port published on the same host port, and the service's image. |
| Uptime.Display | src/main.rs:1529-1541 | The leading unit is days, hours, minutes or seconds according to the duration's magnitude. Every trailing unit is in range. The shown value is the duration itself below an hour, and the duration rounded down to the minute from an hour on. |
| Uptime.FormatDuration | src/main.rs:1529-1542 | The formatter always returns some text. |
| Uptime.FormatDurationRoundTrip | src/main.rs:1529-1541 | The uptime text reads back as exactly the units chosen by the first non-zero unit, and it stands for the uptime, exact below an hour and rounded down to the minute otherwise. |
| Text.Split | src/main.rs:1163 | `split` yields at least one piece, no piece contains the delimiter, and joining the pieces gives back the input. |
| Text.SplitJoin | src/main.rs:1163 | Pieces without the delimiter, joined and then split, come back unchanged. |
| Text.LinesUnlines | src/main.rs:1160-1161 | `lines` reads back lines that contain no line break and do not end in a carriage return. |
| Text.WordsSpaced | src/main.rs:1498 | `split_whitespace` reads back non-empty words without whitespace, however much whitespace surrounds and separates them. |
| Text.Trim | src/main.rs:1240 | `trim` leaves the middle of the text after an all-whitespace prefix and an all-whitespace suffix are dropped, and neither end of the result is whitespace. |
| Text.TrimEndChar | src/main.rs:1200-1202 | `trim_end_matches('%')` leaves a prefix of the text, everything dropped is the character, and the result does not end in it. |
| Text.StripSuffix | src/main.rs:1247-1251 | `strip_suffix` returns what precedes the suffix, which followed by the suffix gives back the text. |
| Text.StripSuffixNone | src/main.rs:1247-1253 | `strip_suffix` fails only when no text followed by the suffix equals the input. |
| Text.Pad2 | src/main.rs:1537-1540 | `{:02}` prints at least two digits and exactly two below 100, and the digits denote the number. |
| Text.NatToStringValue | src/main.rs:1537 | `{}` prints the digits of the number without leading zeros. |
| Listing.ParseListing | src/main.rs:1157-1178 | A failed or unspawnable listing command gives no records. Otherwise the records are the accepted lines' parses, in order. |
| Listing.FilterMapAppend | src/main.rs:1160-1176 | Filtering keeps input order: it distributes over concatenation. |
| Listing.ListingRoundTrip | src/main.rs:1270-1291 | A listing printed one record per line is read back as exactly those records. |
| Records.ParsePsLine | src/main.rs:1163-1174 | A `docker ps` line is accepted exactly when it has at least five pieces separated by `|` characters. |
| Records.ParsePsLineRoundTrip | src/main.rs:1163-1174 | A container row whose fields contain no separator is read back from its printed line. |
| Records.ParseStatsLine | src/main.rs:1197-1198 | A `docker stats` line is accepted exactly when it has at least six pieces. |
| Records.ParseStatsLineRoundTrip | src/main.rs:1197-1205 | A usage line whose percentages end in `%` is read back with exactly the numbers before the signs. |
| Records.PercentMetric | src/main.rs:1200-1202 | The text read is a prefix of the column that does not end in `%`, and everything dropped after it is `%` signs. |
| Records.ParseImageLine | src/main.rs:1276-1286 | A `docker images` line is accepted exactly when it has at least four pieces separated by `|` characters. |
| Records.ParseImageLineRoundTrip | src/main.rs:1276-1286 | An image row is read back from its printed line. |
| Records.ParsePodLine | src/main.rs:1498-1509 | A pod line is accepted exactly when it has at least five whitespace-separated words. |
| Records.ParsePodLineRoundTrip | src/main.rs:1498-1509 | A pod whose fields are single words is read back from its printed line, whatever spaces or tabs pad its columns. |
| Records.DockerImagesRoundTrip | src/main.rs:1261-1292 | A whole image listing is read back, in order. |
| Records.KubernetesPodsRoundTrip | src/main.rs:1480-1515 | A whole pod listing is read back, in order, whatever padding each line uses between and around its columns. |
| Records.MalformedLineSkipped | src/main.rs:1162-1175 | A malformed line anywhere in a listing is dropped: the records are those of the lines before it followed by those of the lines after it. |
| Records.StatsIndex | src/main.rs:1191-1207 | Every entry of the usage map is keyed by its own ID and is one of the accepted usage lines. |
| Records.StatsIndexKeys | src/main.rs:1191-1207 | The usage map has exactly the IDs of the accepted usage lines. |
| Records.StatsIndexLastWins | src/main.rs:1205 | When an ID has several usage lines, the last one wins. |
| Records.WithStats | src/main.rs:1211-1236 | The left join gives one container per listed row, in order, with the row's own fields. It carries the row's usage figures when they exist, and otherwise the zero and "N/A" placeholders. |
| Records.JoinWithRows | src/main.rs:1209-1236 | Joined against the usage lines, each listed row carries the figures of the last usage line with its ID, or the placeholders when no usage line has its ID. |
| Records.ContainersWithStats | src/main.rs:1147-1237 | A failed `docker ps` gives no containers. Otherwise the i-th container has the fields of the i-th accepted `docker ps` line and the figures of the last accepted `docker stats` line with its ID, or the placeholders when there is none. |
| Records.StatsUnavailableKeepsContainers | src/main.rs:1193-1221 | When `docker stats` fails, every listed container is still kept, with placeholders. |
| Records.UnitAmount | src/main.rs:1245-1256 | An amount is the number in front of a `kB`, `MB` or `GB` suffix, with that unit's power. |
| Records.ParseNetIo | src/main.rs:1239-1243 | A network I/O figure that does not split into exactly two `/` pieces reads as zero in both directions. |
| Records.ParseNetIoRoundTrip | src/main.rs:1239-1258 | `rx<unit> / tx<unit>` reads back as the two amounts with their units. |
| Records.PlaceholderNetIoIsZero | src/main.rs:1217-1220 | The "N/A" placeholder reads as zero traffic in both directions. |
| App.New | src/main.rs:129-146 | The dashboard starts on the System tab in the container view, with both cursors on row 0 of empty lists, no message, the dialog closed and empty, and no history. |
| App.HandleKey | src/main.rs:392-543 | A key that does not quit starts at most one command and leaves the listed containers, images, pods and the usage history unchanged. |
| App.DialogCapturesKeys | src/main.rs:392-427 | While the dialog is open, every key goes to it. Nothing quits, nothing outside the dialog changes, and only Enter can start a command. |
| App.DialogCloses | src/main.rs:394-397 | Esc closes and clears the dialog. Enter does too, sets the status message, and starts `docker run` exactly when an image name was given. |
| App.QuitOnlyOnQ | src/main.rs:429 | The dashboard quits exactly on `q` outside the dialog. |
| App.ControlKeysSwitchTabs | src/main.rs:430-438 | Control+S, D and K switch tabs even where plain `s` or `d` would act on a row. |
| App.ViewToggle | src/main.rs:449-455 | Tab on the Docker tab flips the view and puts the cursor on row 0. A second Tab restores the view. |
| App.StaleSelectionIgnored | src/main.rs:476-541 | With a missing or stale selection, every row key is ignored: nothing is started and nothing changes. |
| App.ContainerKeysTargetSelection | src/main.rs:476-533 | `x`, `s`, `t` and Delete each start one `docker` command on the selected container's ID and name it in the status line. |
| App.ImageAndPodKeysTargetSelection | src/main.rs:488-494 | `x` in the image view removes the selected image by ID. `d` on the Kubernetes tab deletes the selected pod in its namespace. |
| App.ContainerKeysIgnoredInImageView | src/main.rs:498-533 | `s`, `t` and Delete do nothing in the image view. |
| App.PresetKeys | src/main.rs:460-475 | `p`, `r`, `m` and `g` on the Docker tab start their preset and set its status message. |
| App.NavigationStaysInRange | src/main.rs:439-448 | Up and Down keep a valid cursor valid and start nothing. |
| App.SystemTabIsPassive | src/main.rs:428-543 | On the System tab, only quitting and tab switching have any effect. |
| Tick.InitialHost | src/main.rs:253-259 | Before the first tick, all four windows are sixty zeros and no previous totals exist. |
| Tick.HostTick | src/main.rs:273-302 | A tick keeps every window full and slides in the CPU and RAM readings. It also slides in the receive and send rates: zero without previous sums, otherwise this tick's conversion of the saturated byte deltas. It remembers the current sums. |
| Tick.FirstTicksRates | src/main.rs:280-300 | The first tick pushes a zero rate in both directions. The second pushes the growth of the sums, converted with the second tick's own elapsed time. |
| Tick.CounterResetPushesZeroBytes | src/main.rs:280-289 | In each direction, a sum of readings smaller than the previous tick's pushes a zero rate. |
| Tick.CpuWindowIsLatest | src/main.rs:295-296 | After any run of ticks, the CPU window holds the latest readings, preceded by whatever zeros remain. |
| Tick.RefreshKeepsSelections | src/main.rs:304-331 | A refresh replaces exactly the lists of the tab on screen, and never touches the tab, selections, view, dialog or message. |
| Tick.RefreshRecordsListed | src/main.rs:305-321 | A Docker refresh gives every listed container a history and removes none. Unlisted histories are unchanged and stay within the cap. |
| Tick.RefreshRecordsSample | src/main.rs:309-321 | After a refresh, each listed container's newest history entry is its fresh usage sample. |
| Tick.RefreshCanStrandSelection | src/main.rs:304-331 | The refresh itself does not move the cursor: a refresh that shrinks the list below it leaves it out of range, and the key handlers given that index do nothing. |

## Left out

- Terminal I/O: raw mode, the alternate screen, polling with a 200 ms timeout, and every rendering function (charts, gauges, tables, the dialog box, `clamp_percent`, `kib_to_gib`). The model starts where a key event or a tick begins.
- What ratatui's stateful table does to `TableState` while rendering. Every frame is drawn between a refresh and the next key, and rendering a table moves a selection past the end to the last row, or clears it on an empty table. So after the Docker or Kubernetes list shrinks, a row key acts on the last row rather than on nothing. The model keeps the index exactly as the key handlers and the refresh leave it, and does not model that clamp.
- Floating point:
  - CPU and memory percentages are kept as the text that `parse::<f64>().unwrap_or(0.0)` would read (`Metric`).
  - Network amounts are kept as the number text plus the unit's power of 1024 (`NetAmount`). The multiplication by 1024 is not performed.
- Tick.HostTick: the CPU and RAM percentages are the `u64` values pushed: the CPU figure rounded, and the RAM figure truncated by `as u64`. The conversion of a byte delta into KB/s (division by 1024 and by the elapsed seconds, then rounding) is floating point. It is the reading's own `kbs` function, one per tick, so the elapsed time itself is not modelled.
- Tick.HostTick: the sum of the interface readings is unbounded. The `u64` sum in the source could overflow only past 2^64 bytes.
- The metrics library (`System`, `Networks`): its readings are the parameters of a tick. What a network reading counts is not modelled. The rate computation only sums the readings and subtracts the previous tick's sum, whether the readings are running totals or amounts since the previous refresh.
- `String::from_utf8_lossy`: process output is given as text.
- The Unix time used in preset container names is the `now` parameter, a natural number. `chrono` returns a signed value, but only times after 1970 are modelled.
- The spawn results of the lifecycle and preset commands are not modelled. The source discards them with `.ok()`. A started command is just a `Process` value.
- CreateContainer.RunArgsDecode: the round trip needs the image name not to start with `-`. Docker reads any word starting with `-` that stands where the image belongs as a flag, and the source does not guard against it. The decoder rejects such a word unless it is one of the four options the dialog uses.
- Uptime.FormatDuration: its own contract only says that text is always produced. Uptime.FormatDurationRoundTrip states which units the text uses and what it means.
- `ContainerStats` keeps the parsed amounts rather than the `f64` kilobyte figures.
