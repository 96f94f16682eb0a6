/**
  The simulator's configuration: the options a driver sets one at a time
  before the caches are built (block size, unified or split sizes,
  associativity, write policy, allocation policy).
 */
module Config {
  import opened Wrappers

  /** Bytes per word; a block of b bytes holds b / WORD_SIZE words. */
  const WORD_SIZE: int := 4

  /**
    Words in a block of the given byte count, with C's integer division,
    which truncates toward zero: the largest multiple of the word size not
    beyond the byte count in the direction of zero, counted in words.
   */
  function WordsPerBlock(bytes: int): (r: int)
    ensures bytes >= 0 ==> 0 <= r * WORD_SIZE <= bytes < r * WORD_SIZE + WORD_SIZE
    ensures bytes < 0 ==> bytes <= r * WORD_SIZE <= 0 && r * WORD_SIZE < bytes + WORD_SIZE
  {
    if bytes >= 0 then bytes / WORD_SIZE else -((-bytes) / WORD_SIZE)
  }

  /** The configuration options; anything else is an unrecognised option. */
  datatype Param =
    | BlockSize
    | UnifiedSize
    | InstSize
    | DataSize
    | Associativity
    | WriteBack
    | WriteThrough
    | WriteAlloc
    | NoWriteAlloc
    | Unrecognized(code: int)

  /** A snapshot of the configuration variables. */
  datatype Settings = Settings(
    split: bool,
    usize: int,
    isize: int,
    dsize: int,
    blockSize: int,
    wordsPerBlock: int,
    assoc: int,
    writeBack: bool,
    writeAlloc: bool)

  /**
    The effect of setting one option: None for an unrecognised option (the
    program reports it and stops), otherwise the updated settings.
   */
  function Apply(s: Settings, param: Param, value: int): (r: Option<Settings>)
  {
    match param
    case BlockSize => Some(s.(blockSize := value, wordsPerBlock := WordsPerBlock(value)))
    case UnifiedSize => Some(s.(split := false, usize := value))
    case InstSize => Some(s.(split := true, isize := value))
    case DataSize => Some(s.(split := true, dsize := value))
    case Associativity => Some(s.(assoc := value))
    case WriteBack => Some(s.(writeBack := true))
    case WriteThrough => Some(s.(writeBack := false))
    case WriteAlloc => Some(s.(writeAlloc := true))
    case NoWriteAlloc => Some(s.(writeAlloc := false))
    case Unrecognized(_) => None
  }

  /** The configuration variables, updated in place one option at a time. */
  class CacheParams {
    var split: bool
    var usize: int
    var isize: int
    var dsize: int
    var blockSize: int
    var wordsPerBlock: int
    var assoc: int
    var writeBack: bool
    var writeAlloc: bool

    /** Starts from the given defaults, unified. */
    constructor (size: int, blockSize: int, assoc: int, writeBack: bool, writeAlloc: bool)
      ensures Current() == Settings(false, size, size, size, blockSize, WordsPerBlock(blockSize),
                                    assoc, writeBack, writeAlloc)
    {
      this.split := false;
      this.usize, this.isize, this.dsize := size, size, size;
      this.blockSize := blockSize;
      this.wordsPerBlock := WordsPerBlock(blockSize);
      this.assoc := assoc;
      this.writeBack, this.writeAlloc := writeBack, writeAlloc;
    }

    function Current(): Settings
      reads this
    {
      Settings(split, usize, isize, dsize, blockSize, wordsPerBlock, assoc, writeBack, writeAlloc)
    }

    /**
      Sets one option. An unrecognised option is reported by ok == false
      and changes nothing (the program stops at that point).
     */
    method SetCacheParam(param: Param, value: int) returns (ok: bool)
      modifies this
      ensures ok == Apply(old(Current()), param, value).Some?
      ensures ok ==> Current() == Apply(old(Current()), param, value).value
      ensures !ok ==> Current() == old(Current())
    {
      ok := true;
      match param {
        case BlockSize =>
          blockSize := value;
          wordsPerBlock := WordsPerBlock(value);
        case UnifiedSize =>
          split := false;
          usize := value;
        case InstSize =>
          split := true;
          isize := value;
        case DataSize =>
          split := true;
          dsize := value;
        case Associativity =>
          assoc := value;
        case WriteBack =>
          writeBack := true;
        case WriteThrough =>
          writeBack := false;
        case WriteAlloc =>
          writeAlloc := true;
        case NoWriteAlloc =>
          writeAlloc := false;
        case Unrecognized(_) =>
          ok := false;
      }
    }
  }

  /** The options applied in order; None as soon as one is unrecognised. */
  function SetParams(s: Settings, ps: seq<(Param, int)>): Option<Settings>
    decreases |ps|
  {
    if ps == [] then Some(s)
    else match Apply(s, ps[0].0, ps[0].1)
      case None => None
      case Some(s') => SetParams(s', ps[1..])
  }

  /**
    Whether the caches are split is decided by the last size option given:
    a unified size makes them unified, an instruction or data size makes
    them split; no other option touches it.
   */
  lemma {:induction false} LastSizeOptionDecidesSplit(s: Settings, ps: seq<(Param, int)>)
    requires SetParams(s, ps).Some?
    ensures var r := SetParams(s, ps).value;
      if exists i :: 0 <= i < |ps| && ps[i].0 in {UnifiedSize, InstSize, DataSize}
      then r.split == (LastSizeOption(ps) != UnifiedSize)
      else r.split == s.split
    decreases |ps|
  {
    if ps != [] {
      var s' := Apply(s, ps[0].0, ps[0].1).value;
      LastSizeOptionDecidesSplit(s', ps[1..]);
      if exists i :: 0 <= i < |ps[1..]| && ps[1..][i].0 in {UnifiedSize, InstSize, DataSize} {
        var i :| 0 <= i < |ps[1..]| && ps[1..][i].0 in {UnifiedSize, InstSize, DataSize};
        assert ps[i + 1].0 == ps[1..][i].0;
        LastSizeOptionOfTail(ps);
      } else {
        forall j | 1 <= j < |ps| ensures ps[j].0 !in {UnifiedSize, InstSize, DataSize} {
          assert ps[1..][j - 1] == ps[j];
        }
        LastSizeOptionOfTail(ps);
      }
    }
  }

  /** The last size option in ps (UnifiedSize if there is none, which is never consulted then). */
  function LastSizeOption(ps: seq<(Param, int)>): Param
    decreases |ps|
  {
    if ps == [] then UnifiedSize
    else if ps[|ps| - 1].0 in {UnifiedSize, InstSize, DataSize} then ps[|ps| - 1].0
    else LastSizeOption(ps[..|ps| - 1])
  }

  lemma {:induction false} LastSizeOptionOfTail(ps: seq<(Param, int)>)
    requires ps != []
    ensures (exists i :: 1 <= i < |ps| && ps[i].0 in {UnifiedSize, InstSize, DataSize})
      ==> LastSizeOption(ps) == LastSizeOption(ps[1..])
    ensures (forall i :: 1 <= i < |ps| ==> ps[i].0 !in {UnifiedSize, InstSize, DataSize})
      && ps[0].0 in {UnifiedSize, InstSize, DataSize}
      ==> LastSizeOption(ps) == ps[0].0
    decreases |ps|
  {
    if |ps| > 1 {
      var init := ps[..|ps| - 1];
      assert ps[1..][..|ps[1..]| - 1] == init[1..];
      LastSizeOptionOfTail(init);
      forall i | 1 <= i < |init| ensures init[i] == ps[i] { }
    }
  }
}
