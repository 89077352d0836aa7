/** Names of the objects in the bucket. The model's store is keyed by Key; Name writes a key out as the
    bucket sees it, and is injective, so nothing is lost by keying on the structured form. */
module ObjectKeys {
  import opened Prelude
  import Hex
  import RangeIndex

  datatype Key = Block(hash: string) | Index(rangeSize: nat, start: nat)

  const INDEX_PREFIX: string := "index/range/v1/size-"
  const BLOCK_PREFIX: string := "blocks/"

  function Name(k: Key): string {
    match k
    case Block(hash) => BLOCK_PREFIX + hash + ".blk"
    case Index(rangeSize, start) =>
      INDEX_PREFIX + (Decimal(rangeSize) + "/" + (Pad(Decimal(start), 10) + ".bin"))
  }

  /** rangeindex.ObjectKey. */
  function ObjectKey(start: nat, rangeSize: nat): Result<string, RangeIndex.Error> {
    if rangeSize == 0 then Failure(RangeIndex.ZeroRangeSize) else Success(Name(Index(rangeSize, start)))
  }

  /** rangeindex.ObjectKeyForHeight: the key of the range that holds height, and where the range starts. */
  function ObjectKeyForHeight(height: nat, rangeSize: nat): Result<(string, nat), RangeIndex.Error> {
    var start :- RangeIndex.StartHeight(height, rangeSize);
    var key :- ObjectKey(start, rangeSize);
    Success((key, start))
  }

  /** %d */
  function Decimal(n: nat): (s: string)
    ensures |s| > 0 && AllDigits(s)
  {
    if n < 10 then [Hex.DIGITS[n]] else Decimal(n / 10) + [Hex.DIGITS[n % 10]]
  }

  /** %0<width>d */
  function Pad(s: string, width: nat): (p: string)
    requires AllDigits(s)
    ensures AllDigits(p)
    decreases width - |s|
  {
    if |s| >= width then s else Pad("0" + s, width)
  }

  predicate AllDigits(s: string) {
    forall i :: 0 <= i < |s| ==> '0' <= s[i] <= '9'
  }

  /** The number a digit string stands for, leading zeros included. */
  function Parse(s: string): nat
    requires AllDigits(s)
  {
    if s == "" then 0 else 10 * Parse(s[..|s| - 1]) + (s[|s| - 1] as int - '0' as int)
  }

  lemma {:induction false} ParseDecimal(n: nat)
    ensures Parse(Decimal(n)) == n
  {
    if n >= 10 {
      ParseDecimal(n / 10);
      assert Decimal(n)[..|Decimal(n)| - 1] == Decimal(n / 10);
    }
  }

  lemma {:induction false} ParseLeadingZero(s: string)
    requires AllDigits(s)
    ensures Parse("0" + s) == Parse(s)
  {
    if s != "" {
      ParseLeadingZero(s[..|s| - 1]);
      assert ("0" + s)[..|s|] == "0" + s[..|s| - 1];
    }
  }

  lemma {:induction false} ParsePad(s: string, width: nat)
    requires AllDigits(s)
    ensures Parse(Pad(s, width)) == Parse(s)
    decreases width - |s|
  {
    if |s| < width {
      ParseLeadingZero(s);
      ParsePad("0" + s, width);
    }
  }

  /** Text before the first slash and text after it can be told apart. */
  lemma SplitAtSlash(a: string, b: string, a': string, b': string)
    requires AllDigits(a) && AllDigits(a') && a + "/" + b == a' + "/" + b'
    ensures a == a' && b == b'
  {
    var s, s' := a + "/" + b, a' + "/" + b';
    assert s[|a|] == '/' && s'[|a'|] == '/';
    if |a| < |a'| {
      assert false;
    }
    if |a'| < |a| {
      assert false;
    }
    assert a == s[..|a|] && a' == s'[..|a|];
    assert b == s[|a| + 1..] && b' == s'[|a| + 1..];
  }

  /** Two keys are written alike only when they are the same key. */
  lemma NameInjective(k: Key, k': Key)
    requires Name(k) == Name(k')
    ensures k == k'
  {
    assert Name(k)[0] == if k.Block? then 'b' else 'i';
    assert Name(k')[0] == if k'.Block? then 'b' else 'i';
    match k
    case Block(hash) =>
      assert Name(k)[|BLOCK_PREFIX|..|Name(k)| - 4] == hash;
      assert Name(k')[|BLOCK_PREFIX|..|Name(k')| - 4] == k'.hash;
    case Index(rangeSize, start) =>
      var tail, tail' := Pad(Decimal(start), 10) + ".bin", Pad(Decimal(k'.start), 10) + ".bin";
      assert Name(k)[|INDEX_PREFIX|..] == Decimal(rangeSize) + "/" + tail;
      assert Name(k')[|INDEX_PREFIX|..] == Decimal(k'.rangeSize) + "/" + tail';
      SplitAtSlash(Decimal(rangeSize), tail, Decimal(k'.rangeSize), tail');
      assert Pad(Decimal(start), 10) == tail[..|tail| - 4];
      assert Pad(Decimal(k'.start), 10) == tail'[..|tail'| - 4];
      ParseDecimal(rangeSize); ParseDecimal(k'.rangeSize);
      ParseDecimal(start); ParsePad(Decimal(start), 10);
      ParseDecimal(k'.start); ParsePad(Decimal(k'.start), 10);
  }

  /** White space as Go's strings.TrimSpace sees it. */
  predicate IsSpace(c: char) {
    c in "\t\n\U{0B}\U{0C}\r \U{85}\U{A0}\U{1680}\U{2028}\U{2029}\U{202F}\U{205F}\U{3000}" || '\U{2000}' <= c <= '\U{200A}'
  }

  function TrimSpace(s: string): string {
    if s == "" then ""
    else if IsSpace(s[0]) then TrimSpace(s[1..])
    else if IsSpace(s[|s| - 1]) then TrimSpace(s[..|s| - 1])
    else s
  }

  predicate Blank(s: string) {
    forall i :: 0 <= i < |s| ==> IsSpace(s[i])
  }

  /** What is cut off is blank, and what is left neither starts nor ends with white space. */
  lemma {:induction false} TrimSpaceMeans(s: string) returns (before: string, after: string)
    ensures s == before + TrimSpace(s) + after && Blank(before) && Blank(after)
    ensures var t := TrimSpace(s); t != "" ==> !IsSpace(t[0]) && !IsSpace(t[|t| - 1])
    ensures TrimSpace(s) == "" <==> Blank(s)
    decreases |s|
  {
    hide IsSpace, Blank;
    before, after := "", "";
    NothingIsBlank();
    if s != "" {
      if IsSpace(s[0]) {
        before, after := TrimSpaceMeans(s[1..]);
        SplitFirst(s, before, TrimSpace(s[1..]), after);
        before := [s[0]] + before;
      } else if IsSpace(s[|s| - 1]) {
        before, after := TrimSpaceMeans(s[..|s| - 1]);
        SplitLast(s, before, TrimSpace(s[..|s| - 1]), after);
        after := after + [s[|s| - 1]];
      } else {
        NotBlank(s);
      }
    }
  }

  lemma NothingIsBlank()
    ensures Blank("")
  {
  }

  lemma NotBlank(s: string)
    requires s != "" && !IsSpace(s[0])
    ensures !Blank(s)
  {
  }

  lemma SplitFirst(s: string, a: string, t: string, b: string)
    requires s != "" && IsSpace(s[0]) && s[1..] == a + t + b
    ensures s == [s[0]] + a + t + b
    ensures Blank(s) <==> Blank(s[1..])
    ensures Blank([s[0]] + a) <==> Blank(a)
  {
    hide IsSpace;
    assert s == [s[0]] + s[1..];
    BlankJoin([s[0]], s[1..]);
    BlankJoin([s[0]], a);
  }

  lemma SplitLast(s: string, a: string, t: string, b: string)
    requires s != "" && IsSpace(s[|s| - 1]) && s[..|s| - 1] == a + t + b
    ensures s == a + t + (b + [s[|s| - 1]])
    ensures Blank(s) <==> Blank(s[..|s| - 1])
    ensures Blank(b + [s[|s| - 1]]) <==> Blank(b)
  {
    hide IsSpace;
    assert s == s[..|s| - 1] + [s[|s| - 1]];
    BlankJoin(s[..|s| - 1], [s[|s| - 1]]);
    BlankJoin(b, [s[|s| - 1]]);
  }

  lemma BlankJoin(a: string, b: string)
    ensures Blank(a + b) <==> Blank(a) && Blank(b)
  {
    hide IsSpace;
    var s := a + b;
    assert forall i :: 0 <= i < |a| ==> s[i] == a[i];
    assert forall i :: 0 <= i < |b| ==> s[|a| + i] == b[i];
  }

  /** r2store.BlockKey: the key of one block, or None when the text is no 32-byte hash. */
  function BlockKey(hash: string): Option<Key> {
    var h := TrimSpace(hash);
    if h == "" then None
    else match Hex.Decode(h)
      case None => None
      case Some(raw) => if |raw| == 32 then Some(Block(h)) else None
  }

  /** A hash in RPC form is its own block key. */
  lemma BlockKeyOfHash(hash: string)
    requires Hex.IsHash(hash)
    ensures BlockKey(hash) == Some(Block(hash))
    ensures TrimSpace(hash) == hash
  {
    Hex.LowerOfHash(hash);
    HexIsNoSpace(hash[0]);
    HexIsNoSpace(hash[63]);
  }

  lemma HexIsNoSpace(c: char)
    requires Hex.IsHexDigit(c)
    ensures !IsSpace(c)
  {
  }

  /** Every key BlockKey gives out names a 32-byte hash. */
  lemma BlockKeyIsHash(hash: string)
    ensures BlockKey(hash).Some? ==> BlockKey(hash).value.Block? && |BlockKey(hash).value.hash| == 64
  {
  }
}
