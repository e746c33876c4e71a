/** The sink (`process_trades`): route a batch of trades to one CSV file of the
    run's directory and append it there, creating the directory when it is
    missing and trying once more. */
module Sink {
  import opened Trades
  import opened Symbols

  /** The file `./{dir}/{name}`. */
  datatype Path = Path(dir: string, name: string)

  /** What is fixed for a whole run: the `--split` flag, the name of the run's
      directory (the run's start time, formatted) and the calendar day a
      millisecond timestamp falls on (formatting of dates is not modelled). */
  datatype Config = Config(split: bool, runDir: string, day: int -> string)

  /** The part of the filesystem the sink touches: the directories that exist and
      the rows of each CSV file, one trade per row. */
  datatype Disk = Disk(dirs: set<string>, files: map<Path, seq<Trade>>)

  /** Failures of `open` that do not depend on the directory being missing:
      paths whose opening raises `FileNotFoundError` although the run's directory
      exists, and paths whose opening raises any other `OSError`. */
  datatype Env = Env(unreachable: set<Path>, unwritable: set<Path>)

  /** The state after a call, and whether the call raised. */
  datatype Effect = Effect(disk: Disk, raised: bool)

  datatype OpenResult = Opened | NotFound | Denied

  function Contents(d: Disk, p: Path): seq<Trade>
  {
    if p in d.files then d.files[p] else []
  }

  /** The partition key: the day of the batch's first trade when splitting, else `merged`. */
  function Key(cfg: Config, trades: seq<Trade>): string
    requires !cfg.split || trades != []
  {
    if cfg.split then cfg.day(trades[0].ts) else "merged"
  }

  function FileName(symbol: string, key: string): string
  {
    "trades_" + symbol + "_" + key + ".csv"
  }

  /** `open(path, 'a')`: fails when the directory is missing. */
  function TryOpen(d: Disk, env: Env, p: Path): OpenResult
  {
    if p.dir !in d.dirs || p in env.unreachable then NotFound
    else if p in env.unwritable then Denied
    else Opened
  }

  /** What `process_trades(trades, symbol)` does to the disk. The retry after
      creating the directory passes on the symbol it has already normalised, and
      the retried call normalises it once more. */
  function Processed(d: Disk, env: Env, cfg: Config, trades: seq<Trade>, symbol: string): Effect
    decreases if cfg.runDir in d.dirs then 0 else 1
  {
    var sym := Normalize(symbol);
    if cfg.split && trades == [] then
      Effect(d, true)  // `trades[0]` raises IndexError
    else
      var path := Path(cfg.runDir, FileName(sym, Key(cfg, trades)));
      match TryOpen(d, env, path)
      case Opened => Effect(d.(files := d.files[path := Contents(d, path) + trades]), false)
      case Denied => Effect(d, true)
      case NotFound =>
        if cfg.runDir in d.dirs then Effect(d, true)  // `os.mkdir` raises FileExistsError
        else Processed(d.(dirs := d.dirs + {cfg.runDir}), env, cfg, trades, sym)
  }

  /** Where a batch lands when the run's directory already exists. */
  function Destination(cfg: Config, trades: seq<Trade>, symbol: string): Path
    requires !cfg.split || trades != []
  {
    Path(cfg.runDir, FileName(Normalize(symbol), Key(cfg, trades)))
  }

  lemma FileNameInjective(a: string, b: string, key: string)
    ensures FileName(a, key) == FileName(b, key) <==> a == b
  {
    if FileName(a, key) == FileName(b, key) {
      assert |a| == |b|;
      assert a == FileName(a, key)[7..7 + |a|];
      assert b == FileName(b, key)[7..7 + |b|];
    }
  }

  /** A call either raises and leaves every file as it was, or appends the whole
      batch, in order, to exactly one file of the run's directory. At most one
      directory is created, the run's, and only when it was missing. */
  lemma {:induction false} ProcessedAppendsToOneFile(d: Disk, env: Env, cfg: Config, trades: seq<Trade>, symbol: string)
    ensures var e := Processed(d, env, cfg, trades, symbol);
      && d.dirs <= e.disk.dirs <= d.dirs + {cfg.runDir}
      && (e.disk.dirs != d.dirs ==> cfg.runDir !in d.dirs)
      && (e.raised ==> e.disk.files == d.files)
      && (!e.raised ==> exists p: Path :: p.dir == cfg.runDir
                         && e.disk.files == d.files[p := Contents(d, p) + trades])
    decreases if cfg.runDir in d.dirs then 0 else 1
  {
    var sym := Normalize(symbol);
    if !(cfg.split && trades == []) {
      var path := Path(cfg.runDir, FileName(sym, Key(cfg, trades)));
      var d' := d.(dirs := d.dirs + {cfg.runDir});
      if TryOpen(d, env, path) == NotFound && cfg.runDir !in d.dirs {
        ProcessedAppendsToOneFile(d', env, cfg, trades, sym);
        var e := Processed(d', env, cfg, trades, sym);
        if !e.raised {
          var p: Path :| p.dir == cfg.runDir && e.disk.files == d'.files[p := Contents(d', p) + trades];
          assert Contents(d', p) == Contents(d, p);
        }
      }
    }
  }

  /** The error cases: an empty batch when splitting, a file that cannot be
      opened for a reason other than a missing directory, and a missing file
      whose directory exists, all raise and change nothing. */
  lemma ProcessedErrors(d: Disk, env: Env, cfg: Config, trades: seq<Trade>, symbol: string)
    ensures cfg.split && trades == [] ==> Processed(d, env, cfg, trades, symbol) == Effect(d, true)
    ensures !cfg.split || trades != [] ==>
      var p := Destination(cfg, trades, symbol);
      (p in env.unwritable && p !in env.unreachable && cfg.runDir in d.dirs) || (p in env.unreachable && cfg.runDir in d.dirs)
      ==> Processed(d, env, cfg, trades, symbol) == Effect(d, true)
  {
  }

  /** With the directory in place and the file openable, the batch is appended to
      the file named after the normalised symbol and the partition key. */
  lemma ProcessedWhenDirectoryExists(d: Disk, env: Env, cfg: Config, trades: seq<Trade>, symbol: string)
    requires !cfg.split || trades != []
    requires cfg.runDir in d.dirs
    requires Destination(cfg, trades, symbol) !in env.unreachable + env.unwritable
    ensures var p := Destination(cfg, trades, symbol);
      Processed(d, env, cfg, trades, symbol)
        == Effect(d.(files := d.files[p := Contents(d, p) + trades]), false)
  {
  }

  /** When the directory is missing it is created and the batch is appended on
      the retry; the retry writes to the same file as a call made once the
      directory exists exactly when normalising the normalised symbol changes
      nothing. */
  lemma {:induction false} RetryDestination(d: Disk, env: Env, cfg: Config, trades: seq<Trade>, symbol: string)
    requires !cfg.split || trades != []
    requires cfg.runDir !in d.dirs
    requires Destination(cfg, trades, Normalize(symbol)) !in env.unreachable + env.unwritable
    ensures var q := Destination(cfg, trades, Normalize(symbol));
      Processed(d, env, cfg, trades, symbol)
        == Effect(Disk(d.dirs + {cfg.runDir}, d.files[q := Contents(d, q) + trades]), false)
    ensures Destination(cfg, trades, Normalize(symbol)) == Destination(cfg, trades, symbol)
        <==> |Normalize(symbol)| == 7
  {
    FileNameInjective(Normalize(Normalize(symbol)), Normalize(symbol), Key(cfg, trades));
    NormalizeIdempotentIff(symbol);
  }

  /** The filesystem, updated in place by the sink. */
  class FileSystem {
    var dirs: set<string>
    var files: map<Path, seq<Trade>>
    const env: Env

    constructor (dirs: set<string>, files: map<Path, seq<Trade>>, env: Env)
      ensures this.dirs == dirs && this.files == files && this.env == env
    {
      this.dirs := dirs;
      this.files := files;
      this.env := env;
    }

    function State(): Disk
      reads this
    {
      Disk(dirs, files)
    }

    /** `open(path, 'a')`: on success the file exists afterwards, empty if it was new. */
    method Open(p: Path) returns (r: OpenResult)
      modifies this
      ensures r == TryOpen(old(State()), env, p)
      ensures dirs == old(dirs)
      ensures files == if r == Opened then old(files)[p := Contents(old(State()), p)] else old(files)
    {
      r := TryOpen(State(), env, p);
      if r == Opened {
        files := files[p := Contents(State(), p)];
      }
    }

    /** `os.mkdir(dir)`: raises when the directory already exists. */
    method Mkdir(dir: string) returns (raised: bool)
      modifies this
      ensures raised == (dir in old(dirs))
      ensures dirs == old(dirs) + {dir} && files == old(files)
    {
      raised := dir in dirs;
      if !raised {
        dirs := dirs + {dir};
      }
    }

    /** One `writerow` on an open file. */
    method WriteRow(p: Path, t: Trade)
      requires p in files
      modifies this
      ensures dirs == old(dirs) && files == old(files)[p := old(files)[p] + [t]]
    {
      files := files[p := files[p] + [t]];
    }
  }

  /** `process_trades(trades, symbol)`; `raised` tells whether it ended in an exception. */
  method ProcessTrades(fs: FileSystem, cfg: Config, trades: seq<Trade>, symbol: string) returns (raised: bool)
    modifies fs
    ensures Effect(fs.State(), raised) == Processed(old(fs.State()), fs.env, cfg, trades, symbol)
    decreases if cfg.runDir in fs.dirs then 0 else 1
  {
    var sym := Normalize(symbol);
    if cfg.split && trades == [] {
      return true;
    }
    var path := Path(cfg.runDir, FileName(sym, Key(cfg, trades)));
    var status := fs.Open(path);
    if status == NotFound {
      // the directory will not exist on the first batch: create it and try again
      var mkdirRaised := fs.Mkdir(cfg.runDir);
      if mkdirRaised {
        return true;
      }
      raised := ProcessTrades(fs, cfg, trades, sym);
      return;
    }
    if status == Denied {
      return true;
    }
    ghost var before := Contents(old(fs.State()), path);
    assert before + trades[..0] == before;
    for i := 0 to |trades|
      invariant fs.dirs == old(fs.dirs)
      invariant fs.files == old(fs.files)[path := before + trades[..i]]
    {
      fs.WriteRow(path, trades[i]);
      assert before + trades[..i + 1] == (before + trades[..i]) + [trades[i]];
    }
    assert trades[..|trades|] == trades;
    raised := false;
  }
}
