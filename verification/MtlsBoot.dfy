/** Client-certificate settings across restarts (`gunicorn_config.py`): each start writes what
    it decided, and a start that cannot read its settings reuses what was written. */
module MtlsBoot {
  import opened Prelude

  /** What the settings say, when they can be read: mTLS off, or on with a chain. */
  datatype Settings = Off | On(chain: string, required: bool)

  /** One start: the settings (`None` when reading them raises) and whether its two file writes
      succeed. */
  datatype Start = Start(settings: Option<Settings>, chainWritten: bool, modeWritten: bool)

  /** The two files kept between starts. */
  datatype Files = Files(chain: Option<string>, mode: Option<string>)

  /** What the listening socket is told: 0 asks for no client certificate, 1 makes it optional,
      2 demands one. */
  datatype Socket = Socket(certReqs: int, chain: Option<string>)

  const PLAIN: Socket := Socket(0, None)

  function Mode(required: bool): string {
    if required then "required" else "optional"
  }

  function Remembered(files: Files, ok: bool, required: bool): Files {
    if ok then files.(mode := Some(Mode(required))) else files
  }

  function Fallback(files: Files): Socket {
    if files.chain.None? || files.mode.None? then PLAIN
    else Socket(if files.mode.value == "required" then 2 else 1, files.chain)
  }

  function Boot(files: Files, s: Start): (Files, Socket) {
    match s.settings
    case None => (files, Fallback(files))
    case Some(Off) => (Remembered(files, s.modeWritten, false), PLAIN)
    case Some(On(chain, required)) =>
      if s.chainWritten then
        (Remembered(files.(chain := Some(chain)), s.modeWritten, required),
         Socket(if required then 2 else 1, Some(chain)))
      else (files, Fallback(files))
  }

  function FilesAfter(starts: seq<Start>): Files {
    if starts == [] then Files(None, None)
    else Boot(FilesAfter(starts[..|starts| - 1]), starts[|starts| - 1]).0
  }

  /** The socket of start `i`. */
  function SocketOf(starts: seq<Start>, i: nat): Socket
    requires i < |starts|
  {
    Boot(FilesAfter(starts[..i]), starts[i]).1
  }

  ghost predicate WritesSucceed(starts: seq<Start>) {
    forall i | 0 <= i < |starts| :: starts[i].chainWritten && starts[i].modeWritten
  }

  // ---- Reference: the most recent starts of a kind ------------------------------------

  /** The most recent settings that could be read. */
  ghost function LastRead(starts: seq<Start>): Option<Settings> {
    if starts == [] then None
    else if starts[|starts| - 1].settings.Some? then starts[|starts| - 1].settings
    else LastRead(starts[..|starts| - 1])
  }

  /** The chain of the most recent start with mTLS on. */
  ghost function LastChain(starts: seq<Start>): Option<string> {
    if starts == [] then None
    else
      var s := starts[|starts| - 1].settings;
      if s.Some? && s.value.On? then Some(s.value.chain) else LastChain(starts[..|starts| - 1])
  }

  lemma {:induction false} FilesTell(starts: seq<Start>)
    requires WritesSucceed(starts)
    ensures var files := FilesAfter(starts);
            && files.chain == LastChain(starts)
            && (files.mode.None? <==> LastRead(starts).None?)
            && (files.mode.Some? ==>
                  files.mode == Some(Mode(LastRead(starts).value.On? && LastRead(starts).value.required)))
            && (LastRead(starts).Some? && LastRead(starts).value.On? ==>
                  LastChain(starts) == Some(LastRead(starts).value.chain))
  {
    if starts != [] {
      FilesTell(starts[..|starts| - 1]);
    }
  }

  lemma ModesDiffer()
    ensures Mode(true) != Mode(false)
  {
  }

  /** A start that cannot read its settings demands a certificate exactly when the most recent
      readable start did, and then against the chain of the most recent start with mTLS on. */
  lemma UnreadableStart(starts: seq<Start>, i: nat)
    requires WritesSucceed(starts) && i < |starts| && starts[i].settings.None?
    ensures var last := LastRead(starts[..i]);
            var socket := SocketOf(starts, i);
            && (socket.certReqs == 2 <==> last.Some? && last.value.On? && last.value.required)
            && (socket.certReqs == 0 <==> LastChain(starts[..i]).None?)
            && socket.chain == LastChain(starts[..i])
  {
    FilesTell(starts[..i]);
    ModesDiffer();
    if LastRead(starts[..i]).None? {
      NothingReadNothingKept(starts[..i]);
    }
  }

  lemma {:induction false} NothingReadNothingKept(starts: seq<Start>)
    requires LastRead(starts).None?
    ensures LastChain(starts).None?
  {
    if starts != [] {
      NothingReadNothingKept(starts[..|starts| - 1]);
    }
  }

  /** The socket the settings ask for. */
  function Wanted(s: Settings): Socket {
    if s.Off? then PLAIN else Socket(if s.required then 2 else 1, Some(s.chain))
  }

  /** The fallback is the setting of the most recent readable start, except after mTLS has been
      on and was then turned off: the old chain is still there, and the socket asks again. */
  lemma FallbackKeepsSettingIff(starts: seq<Start>, i: nat)
    requires WritesSucceed(starts) && i < |starts| && starts[i].settings.None?
    requires LastRead(starts[..i]).Some?
    ensures SocketOf(starts, i) == Wanted(LastRead(starts[..i]).value)
       <==> LastRead(starts[..i]).value.On? || LastChain(starts[..i]).None?
  {
    UnreadableStart(starts, i);
    FilesTell(starts[..i]);
    ModesDiffer();
  }

  /** mTLS required, then turned off, then a start that cannot read its settings: the last readable
      setting asks for nothing, and the socket asks for a certificate of the old chain. */
  lemma FallbackAfterOff(chain: string)
    ensures var starts := [Start(Some(On(chain, true)), true, true), Start(Some(Off), true, true),
                           Start(None, true, true)];
            && SocketOf(starts, 2) == Socket(1, Some(chain))
            && LastRead(starts[..2]) == Some(Off) && Wanted(Off) == PLAIN
  {
    var first, off := Start(Some(On(chain, true)), true, true), Start(Some(Off), true, true);
    var starts := [first, off, Start(None, true, true)];
    assert starts[..2] == [first, off] && [first, off][..1] == [first] && [first][..0] == [];
    assert FilesAfter([first]) == Files(Some(chain), Some(Mode(true)));
    assert FilesAfter([first, off]) == Files(Some(chain), Some(Mode(false)));
    ModesDiffer();
  }

  // ---- The configuration module --------------------------------------------------------

  /** Module globals of one start, and the data directory. */
  class Gunicorn {
    var files: Files
    var certReqs: int
    var caCerts: Option<string>

    /** A new process: the globals are back to their defaults, the files are not. */
    constructor (files: Files)
      ensures this.files == files && Socket(certReqs, caCerts) == PLAIN
    {
      this.files, certReqs, caCerts := files, 0, None;
    }

    method RememberMode(required: bool, ok: bool)
      modifies `files
      ensures files == Remembered(old(files), ok, required)
    {
      if ok {
        files := files.(mode := Some(if required then "required" else "optional"));
      }
    }

    method ReuseLastKnown()
      requires Socket(certReqs, caCerts) == PLAIN
      modifies `certReqs, `caCerts
      ensures Socket(certReqs, caCerts) == Fallback(files)
    {
      if files.chain.None? || files.mode.None? {
        return;
      }
      var required := files.mode.value == "required";
      caCerts := files.chain;
      certReqs := if required then 2 else 1;
    }

    method LoadConfig(s: Start)
      requires Socket(certReqs, caCerts) == PLAIN
      modifies this
      ensures (files, Socket(certReqs, caCerts)) == Boot(old(files), s)
    {
      if s.settings.None? {
        ReuseLastKnown();
        return;
      }
      if s.settings.value.Off? {
        RememberMode(false, s.modeWritten);
        return;
      }
      if !s.chainWritten {
        ReuseLastKnown();
        return;
      }
      files := files.(chain := Some(s.settings.value.chain));
      caCerts := files.chain;
      certReqs := if s.settings.value.required then 2 else 1;
      RememberMode(s.settings.value.required, s.modeWritten);
    }
  }

  /** One process after another over the same data directory. */
  method Restart(starts: seq<Start>) returns (sockets: seq<Socket>)
    ensures |sockets| == |starts| && forall i | 0 <= i < |starts| :: sockets[i] == SocketOf(starts, i)
  {
    sockets := [];
    var files := Files(None, None);
    for i := 0 to |starts|
      invariant files == FilesAfter(starts[..i])
      invariant |sockets| == i && forall j | 0 <= j < i :: sockets[j] == SocketOf(starts, j)
    {
      var process := new Gunicorn(files);
      process.LoadConfig(starts[i]);
      files := process.files;
      sockets := sockets + [Socket(process.certReqs, process.caCerts)];
      assert starts[..i + 1][..i] == starts[..i];
    }
  }
}
