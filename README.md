# bfx-data-reader core, modelled in Dafny

The data reader downloads a market symbol's historical trades from a paginated
REST endpoint and appends them to CSV files. This project models its core, all
of it in `run.py`:

- **symbol normalisation** (`normalize_symbol_name`) in `symbols.dfy`;
- **the sink** (`process_trades`) in `sink.dfy`. It picks the partition
  (`merged`, or the day of the batch's first trade), appends the batch row by row
  to `./{run dir}/trades_{symbol}_{partition}.csv`, and when the run's directory
  is missing it creates it and calls itself once more. The filesystem is a
  `FileSystem` class: a set of directories and a map from path to rows. The pure
  function `Processed` specifies the method `ProcessTrades`;
- **the paginator** (`get_trades`) in `pagination.dfy`. Its state is the cursor
  (`last_timestamp`) and a done flag. Each pass of the inner loop takes one
  `Event`: the clock reading `get_until` and the server's response, which is
  a reply (status, optional Retry-After, decoded page) or a fault. The pass
  applies the 429 / other-status / page rule and the three-way "end or
  continue?" decision, and hands the batch to the sink. `Decide`, `Step` and
  `Drive` (a run over a finite sequence of events) are the specification.
  `Pass` (one pass) and `GetTrades` (the loop) are the imperative methods
  proved against them;
- the trade records and the final-page filter in `trades.dfy`.

Termination is not claimed, because it depends on what the server answers. A
run is driven by a finite sequence of events and stops when collection ends or
the events run out.

Properties of the code that the proofs make precise:

- Normalising an already normalised name changes nothing only when the first
  result has 7 characters: 6-character names, or 7-character names that start
  with `t` (`Symbols.NormalizeIdempotentIff`). For `abcdefgh` it gives
  `tABCDEFGH`, then `tTABCDEFGH`. The code normalises repeatedly: at line 99,
  for the request at line 120, and at line 81 on each sink call.
- When `process_trades` has to create the directory, it calls itself with the
  symbol it has already normalised, and that call normalises it again. So the
  first batch of a run goes to the same file as later batches only under the
  same 7-character condition (`Sink.RetryDestination`).
- If the directory exists but the file still cannot be found, `os.mkdir`
  raises. So one call creates at most one directory and retries at most once.
- The cursor moves to the page's last timestamp before the page is written. If
  the sink raises, the outer handler restarts from the advanced cursor, so that
  page is never requested again and is lost (`Pagination.SinkFaultSkipsPage`).
  A fault raised before a page is classified keeps the cursor, so the next
  request has the same lower bound (its upper bound is a fresh `get_until`).

## Model

| member | source | states |
|---|---|---|
| `Symbols.Normalize` | run.py:41-43 | the result is the marker `t` followed by the upper-cased name; one leading character is dropped exactly when the name has 7 characters and starts with `t`; no lower-case ASCII letter follows the marker |
| `Symbols.NormalizeIdempotentIff` | run.py:41-43 | normalising twice equals normalising once if and only if the first result has length 7, if and only if the name has 6 characters or has 7 and starts with `t` |
| `Symbols.NormalizeNotIdempotentExample` | run.py:41-43 | `abcdefgh` normalises to `tABCDEFGH` and then to `tTABCDEFGH` |
| `Trades.UntilEnd` | run.py:159 | the final-page filter's result is an order-preserving subsequence of the page, no longer than it, and holds exactly the page's records with `ts <= end` |
| `Trades.UntilEndCounts` | run.py:159 | the filter keeps each record with `ts <= end` as many times as the page holds it and drops every other record |
| `Trades.UntilEndIsPrefix` | run.py:159 | on an ascending page the filter keeps a prefix, so only a tail of later records is dropped |
| `Sink.FileNameInjective` | run.py:86 | two symbols give the same file name for one partition only if they are equal |
| `Sink.ProcessedAppendsToOneFile` | run.py:82-94 | a call either raises and leaves every file unchanged, or appends the whole batch, in order, to exactly one file of the run's directory and changes no other file; the only directory ever created is the run's, and only when it was missing |
| `Sink.ProcessedErrors` | run.py:82-94 | an empty batch with `split` on raises (`trades[0]`); an unopenable file, or a missing file whose directory exists (`os.mkdir` raises), raises and changes nothing |
| `Sink.ProcessedWhenDirectoryExists` | run.py:80-89 | with the directory present, the batch is appended to `trades_{normalised symbol}_{key}.csv`, where the key is the first trade's day when splitting and `merged` otherwise |
| `Sink.RetryDestination` | run.py:91-94 | a missing directory is created and the batch appended on the single retry, to the file of the twice-normalised symbol; that is the same file as with the directory present exactly when the normalised symbol has length 7 |
| `Sink.FileSystem.Open` | run.py:86 | opening for append fails when the directory is missing, and otherwise creates the file if it does not exist |
| `Sink.FileSystem.Mkdir` | run.py:93 | creating an existing directory raises; otherwise the directory exists afterwards; files are untouched |
| `Sink.FileSystem.WriteRow` | run.py:88-89 | one row is appended to the end of the file |
| `Sink.Processed` | run.py:70-94 | no contract of its own: the pure specification of `process_trades`. `Sink.ProcessTrades` is proved equal to it, and `ProcessedAppendsToOneFile`, `ProcessedErrors`, `ProcessedWhenDirectoryExists` and `RetryDestination` state its properties |
| `Sink.ProcessTrades` | run.py:70-94 | the method's new filesystem and its raised/not-raised outcome are those of `Processed` |
| `Pagination.Decide` | run.py:115-163 | only a 200 reply with a non-empty page moves the cursor, to the page's last timestamp. After a page: stop with nothing if `get_until > end` and the page is empty; else continue and hand over the whole page if the cursor is below `end`; else hand over only the records with `ts <= end` and stop. The batch is an order-preserving subsequence of the page, and on an ascending page every record in it has `ts <= end`. It also gives the pause for 429 (Retry-After or 70, plus 1), other statuses (2), faults (1) and a page that continues the run (4) |
| `Pagination.Step` | run.py:114-169 | no contract of its own: one pass of the inner loop including the sink call, where a sink that raises leaves the run going from the advanced cursor with the outer handler's 1-second pause (run.py:141, 154, 162, 164-169). `Pagination.Pass` is proved equal to it, and `RetriesKeepCursor`, `SinkFaultSkipsPage` and `StepBatchInWindow` state its properties |
| `Pagination.Drive` | run.py:102-169 | no contract of its own: the nested loops over a finite sequence of events, stopping when collection ends or the events run out. `Pagination.GetTrades` is proved equal to it, and `DriveHandsOverEachRecordOnce`, `StartAfterEndHandsOverNothing`, `TwoRecordsThenEmptyPage` and `FinalPageFiltered` state its properties |
| `Pagination.RetriesKeepCursor` | run.py:123-169 | on a running paginator, a 429 or another non-200 status (run.py:123-135), or a fault caught by the outer handler (run.py:164-169), leaves the cursor, done flag and disk unchanged, so the next lower bound is still `last_timestamp + 1` |
| `Pagination.StepBatchInWindow` | run.py:140-163 | on a page that is ascending and after the lower bound, the cursor never moves back and the batch is ascending, after the old cursor, not after the new one and not after `end` |
| `Pagination.SinkFaultSkipsPage` | run.py:140-169 | if the sink raises on a batch, the run continues from the advanced cursor after the outer handler's 1-second pause, no file has changed, and every record of the page lies below the next request's lower bound |
| `Pagination.DriveHandsOverEachRecordOnce` | run.py:102-169 | if the server keeps to each request, every batch handed to the sink is non-empty and ascending, every record lies after `start` and not after `end`, every record of a batch comes strictly before every record of a later batch (none is handed over twice), and the cursor never moves back |
| `Pagination.StartAfterEndHandsOverNothing` | run.py:102-163 | with `start > end` and pages after `start`, nothing is handed to the sink, the disk is unchanged, and the run ends exactly when a successful reply arrives |
| `Pagination.TwoRecordsThenEmptyPage` | run.py:140-155 | records at 100 and 200, then an empty page fetched after `end`: one batch with both records, then the run ends |
| `Pagination.FinalPageFiltered` | run.py:156-163 | with `end = 150`, a page holding records at 100 and 200 hands over only the first record; the run ends exactly when the sink does not raise on that batch |
| `Pagination.Pass` | run.py:114-163 | one pass of the inner loop gives the cursor, done flag, disk, batch, sink outcome and pause that `Step` specifies |
| `Pagination.GetTrades` | run.py:98-171 | after the nested loops, the cursor, done flag, disk, batches handed over and events consumed are those of `Drive` from cursor `start` with the normalised symbol |

## Left out

- Command-line parsing, logging set-up and `print_trade` (run.py:1-25, 45-46): configuration and console output.
- HTTP sessions, URL formatting and JSON decoding (run.py:108-138): each response is an input. A decoded page is a sequence of trades. A malformed payload, a network error and a Retry-After header that `int()` cannot parse all become `Fault`. The symbol in the request URL is not modelled: the model takes each response as an input. That symbol is the twice-normalised one (run.py:120), which names a different market from the once-normalised symbol of run.py:99 unless `NormalizeIdempotentIff`'s length condition holds.
- `asyncio.sleep` is not performed. `Pagination.Decide` states the pause each reply calls for. When the sink raises, the outer handler's 1-second pause (run.py:169) replaces it; `Pagination.Step` and `Pagination.Pass` give the pause actually taken.
- Wall-clock time and date conversions (run.py:49-66): `get_until` is part of each event. The run's directory name and the day of a timestamp are `Config.runDir` and `Config.day`.
- CSV row formatting (run.py:86-89): a file is a sequence of trades. `FileSystem.WriteRow` never fails, so a write that fails part-way through a batch is not modelled. Failures of `open` are given by `Env`.
- `main` (run.py:175-194): one concurrent task per symbol, waiting for all of them, and the check that at least one symbol was given. This is orchestration and concurrency; each task is a separate `GetTrades`.
- Pagination.DriveHandsOverEachRecordOnce: proves only that no record is handed over twice and that all lie in the window; completeness (every trade of the window handed over at least once) is not modelled, because the server's record set is an input. The code does not guarantee it: (i) the first request starts at `start + 1` (run.py:102, 120), so a trade at exactly `start` is never requested; (ii) a full page of `limit=5000` (run.py:119) moves the next lower bound to its last timestamp plus one (run.py:141, 120), so trades sharing that timestamp that did not fit on the page are skipped; (iii) a page whose write raises is lost (`SinkFaultSkipsPage`).
- Termination: the retry loops are unbounded in the code. The model runs over a finite sequence of events and makes no claim that collection ends.
- Symbols.Normalize: upper-casing covers ASCII letters only. Python's `str.upper` also maps other letters and can change the length (`ß` becomes `SS`).
