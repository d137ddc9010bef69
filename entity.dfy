/**
 * The entity lump: brace-delimited blocks of quoted key/value pairs, the
 * property lookup, the conversions of property text to typed values, and
 * the table that names each typed entity variant by its classname.
 */
module Entity {
  import opened Wrappers
  import opened Bytes

  /** The entity lump's text. */
  datatype Entities = Entities(entities: string)

  /** One entity block: the text between its braces. */
  datatype RawEntity = RawEntity(buf: string)

  /**
   * The errors of typed entity extraction. The error module is not part of
   * this model; these are the cases the core raises or passes on.
   */
  datatype EntityParseError =
    | NoSuchProperty(key: string)         // `prop` found no pair with the key
    | ElementCount                        // an array value has too few tokens
    | InvalidInt(kind: IntErrorKind)      // an integer conversion failed
    | InvalidValue(detail: string)        // another conversion of the property text failed
    | InvalidEnumValue(enumName: string)  // an integer is not a discriminant of the named enum

  /** Why `str::parse` of an unsigned integer fails. */
  datatype IntErrorKind = Empty | InvalidDigit | PosOverflow

  // ---------------------------------------------------------------------
  // Blocks: `Entities::iter`

  /** How one step of the block scanner splits its buffer. */
  datatype BlockStep = BlockStep(lead: string, block: string, rest: string)

  /**
   * One call of the block iterator's `next`: the block is the text after
   * the first `{` up to the first `}` after it, and scanning goes on after
   * that `}`. No `{`, or no `}` after it, ends the iteration.
   */
  function ScanBlock(buf: string): (r: Option<BlockStep>)
    ensures r.Some? ==> '{' !in r.value.lead && '}' !in r.value.block && |r.value.rest| < |buf|
  {
    match Find(buf, '{')
    case None => None
    case Some(open) =>
      var start := open + 1;
      match Find(buf[start..], '}')
      case None => None
      case Some(len) =>
        var end := start + len;
        assert buf[start..end] == buf[start..][..len];
        Some(BlockStep(buf[..open], buf[start..end], buf[end + 1..]))
  }

  /** The pieces of a block step, with the braces put back, are the whole buffer. */
  lemma ScanBlockShape(buf: string)
    ensures var r := ScanBlock(buf);
      r.Some? ==> buf == r.value.lead + ['{'] + r.value.block + ['}'] + r.value.rest
  {
    var open := Find(buf, '{');
    if open.Some? {
      var start := open.value + 1;
      var len := Find(buf[start..], '}');
      if len.Some? {
        var end := start + len.value;
        assert ScanBlock(buf) == Some(BlockStep(buf[..open.value], buf[start..end], buf[end + 1..]));
        assert buf[end] == buf[start..][len.value];
        SplitAround(buf, open.value, end);
        assert [buf[open.value]] == ['{'] && [buf[end]] == ['}'];
      }
    }
  }

  /** The scan ends exactly when no `{` in the buffer has a `}` after it. */
  lemma ScanBlockEnds(buf: string)
    ensures ScanBlock(buf).None? <==> forall i, j :: 0 <= i < j < |buf| && buf[i] == '{' ==> buf[j] != '}'
  {
    var open := Find(buf, '{');
    if open.Some? {
      var start := open.value + 1;
      var len := Find(buf[start..], '}');
      if len.None? {
        forall i, j | 0 <= i < j < |buf| && buf[i] == '{'
          ensures buf[j] != '}'
        {
          assert buf[j] == buf[start..][j - start];
        }
      } else {
        assert buf[start + len.value] == buf[start..][len.value];
      }
    }
  }

  /** The blocks the iterator yields from `text`, in order. */
  function Blocks(text: string): (r: seq<string>)
    ensures forall k :: 0 <= k < |r| ==> '}' !in r[k]
    decreases |text|
  {
    match ScanBlock(text)
    case None => []
    case Some(step) => [step.block] + Blocks(step.rest)
  }

  /** The text the iterator skips before each block, and last the text it leaves unscanned. */
  function BlockGaps(text: string): (r: seq<string>)
    decreases |text|
  {
    match ScanBlock(text)
    case None => [text]
    case Some(step) => [step.lead] + BlockGaps(step.rest)
  }

  /** `gaps[0] + "{" + blocks[0] + "}" + gaps[1] + ... + gaps[n]`. */
  function Braced(gaps: seq<string>, blocks: seq<string>): string
    requires |gaps| == |blocks| + 1
  {
    if |blocks| == 0 then gaps[0]
    else gaps[0] + ['{'] + blocks[0] + ['}'] + Braced(gaps[1..], blocks[1..])
  }

  /**
   * The blocks lie in the text in order and without overlap: braced and
   * interleaved with the skipped text they give back the whole text. No
   * skipped stretch holds a `{` and no block a `}`, and what is left
   * unscanned holds no `{` with a `}` after it.
   */
  lemma {:induction false} BlocksPartitionText(text: string)
    ensures var gaps := BlockGaps(text);
      && |gaps| == |Blocks(text)| + 1
      && Braced(gaps, Blocks(text)) == text
      && (forall k :: 0 <= k < |gaps| - 1 ==> '{' !in gaps[k])
      && ScanBlock(gaps[|gaps| - 1]).None?
    decreases |text|
  {
    ScanBlockShape(text);
    match ScanBlock(text)
    case None =>
    case Some(step) =>
      BlocksPartitionText(step.rest);
      var gaps := BlockGaps(text);
      assert gaps[1..] == BlockGaps(step.rest);
      assert Blocks(text)[1..] == Blocks(step.rest);
  }

  /** An unterminated block yields nothing: a `{` with no `}` after it ends the iteration. */
  lemma UnterminatedBlockEnds(text: string, open: nat)
    requires open < |text| && text[open] == '{' && '{' !in text[..open] && '}' !in text[open + 1..]
    ensures Blocks(text) == []
  {
    ScanBlockEnds(text);
    forall i, j | 0 <= i < j < |text| && text[i] == '{'
      ensures text[j] != '}'
    {
      assert text[open + 1..][j - open - 1] == text[j];
    }
  }

  /** The block iterator: the part of the text not scanned yet. */
  class BlockIter {
    var buf: string

    /** `Entities::iter`: a new iterator from the start of the text. */
    constructor (entities: Entities)
      ensures buf == entities.entities
    {
      buf := entities.entities;
    }

    /** `next`: the next block, after which `buf` is the text after its `}`; nothing changes at the end. */
    method Next() returns (r: Option<RawEntity>)
      modifies this
      ensures match ScanBlock(old(buf))
        case None => r.None? && buf == old(buf)
        case Some(step) => r == Some(RawEntity(step.block)) && buf == step.rest
    {
      var open := Find(buf, '{');
      if open.None? {
        return None;
      }
      var start := open.value + 1;
      var len := Find(buf[start..], '}');
      if len.None? {
        return None;
      }
      var end := start + len.value;
      r := Some(RawEntity(buf[start..end]));
      buf := buf[end + 1..];
    }
  }

  // ---------------------------------------------------------------------
  // Properties: `RawEntity::properties`

  /** The number of `"` characters in `s`. */
  function QuoteCount(s: string): nat
  {
    if |s| == 0 then 0 else (if s[0] == '"' then 1 else 0) + QuoteCount(s[1..])
  }

  lemma {:induction false} QuoteCountAppend(a: string, b: string)
    ensures QuoteCount(a + b) == QuoteCount(a) + QuoteCount(b)
    decreases |a|
  {
    if |a| > 0 {
      assert (a + b)[1..] == a[1..] + b;
      QuoteCountAppend(a[1..], b);
    } else {
      assert a + b == b;
    }
  }

  /** How one step of the property scanner splits its buffer. */
  datatype PropertyStep = PropertyStep(lead: string, key: string, between: string, value: string, rest: string)

  /**
   * One call of the property iterator's `next`: the key is the text between
   * the first two `"`, the value the text between the next two, and scanning
   * goes on after the fourth. Fewer than four `"` end the iteration.
   */
  function ScanProperty(buf: string): (r: Option<PropertyStep>)
    ensures r.None? <==> QuoteCount(buf) < 4
    ensures r.Some? ==>
      && '"' !in r.value.lead && '"' !in r.value.key && '"' !in r.value.between && '"' !in r.value.value
      && QuoteCount(r.value.rest) + 4 == QuoteCount(buf)
  {
    match ScanQuoted(buf)
    case None => None
    case Some(first) =>
      match ScanQuoted(first.2)
      case None => None
      case Some(second) => Some(PropertyStep(first.0, first.1, second.0, second.1, second.2))
  }

  /** The pieces of a property step, with the four `"` put back, are the whole buffer. */
  lemma ScanPropertyShape(buf: string)
    ensures var r := ScanProperty(buf);
      r.Some? ==> buf == r.value.lead + ['"'] + r.value.key + ['"'] + r.value.between + ['"'] + r.value.value + ['"'] + r.value.rest
  {
    var first := ScanQuoted(buf);
    if first.Some? {
      ScanQuotedShape(buf);
      var second := ScanQuoted(first.value.2);
      if second.Some? {
        ScanQuotedShape(first.value.2);
        QuotedPairShape(buf, first.value.0, first.value.1, first.value.2, second.value.0, second.value.1, second.value.2);
      }
    }
  }

  lemma QuotedPairShape(buf: string, lead: string, key: string, rest1: string, between: string, value: string, rest: string)
    requires buf == lead + ['"'] + key + ['"'] + rest1
    requires rest1 == between + ['"'] + value + ['"'] + rest
    ensures buf == lead + ['"'] + key + ['"'] + between + ['"'] + value + ['"'] + rest
  {
  }

  /** No `"` in `s` means a count of zero. */
  lemma {:induction false} QuoteFree(s: string)
    requires '"' !in s
    ensures QuoteCount(s) == 0
    decreases |s|
  {
    if |s| > 0 {
      assert forall c :: c in s[1..] ==> c in s;
      QuoteFree(s[1..]);
    }
  }

  /** The `"` at `at`, with none before it, is one of the text's quotes; the rest follow it. */
  lemma QuoteCountAfter(s: string, at: nat)
    requires at < |s| && s[at] == '"' && '"' !in s[..at]
    ensures QuoteCount(s) == QuoteCount(s[at + 1..]) + 1
  {
    assert s == s[..at] + ([s[at]] + s[at + 1..]);
    QuoteCountAppend(s[..at], [s[at]] + s[at + 1..]);
    QuoteCountAppend([s[at]], s[at + 1..]);
    QuoteFree(s[..at]);
    assert QuoteCount([s[at]]) == 1 + QuoteCount([s[at]][1..]);
  }

  /**
   * The first quoted stretch of `s`: the text before the first `"`, the text
   * up to the next `"`, and what follows; nothing when `s` has fewer than two `"`.
   */
  function ScanQuoted(s: string): (r: Option<(string, string, string)>)
    ensures r.None? <==> QuoteCount(s) < 2
    ensures r.Some? ==>
      && '"' !in r.value.0 && '"' !in r.value.1
      && QuoteCount(r.value.2) + 2 == QuoteCount(s)
  {
    match Find(s, '"')
    case None =>
      QuoteFree(s);
      None
    case Some(open) =>
      var start := open + 1;
      QuoteCountAfter(s, open);
      match Find(s[start..], '"')
      case None =>
        QuoteFree(s[start..]);
        None
      case Some(len) =>
        var end := start + len;
        QuoteCountAfter(s[start..], len);
        Some((s[..open], s[start..end], s[end + 1..]))
  }

  /** The pieces of a quoted stretch, with its two `"` put back, are the whole text. */
  lemma ScanQuotedShape(s: string)
    ensures var r := ScanQuoted(s);
      r.Some? ==> s == r.value.0 + ['"'] + r.value.1 + ['"'] + r.value.2
  {
    var open := Find(s, '"');
    if open.Some? {
      var len := Find(s[open.value + 1..], '"');
      if len.Some? {
        QuoteQuotedSplit(s, open.value, len.value);
      }
    }
  }

  lemma QuoteQuotedSplit(s: string, open: nat, len: nat)
    requires open + 1 + len < |s| && s[open] == '"' && s[open + 1..][len] == '"'
    ensures s[open + 1..][..len] == s[open + 1..open + 1 + len]
    ensures s[open + 1..][len + 1..] == s[open + 1 + len + 1..]
    ensures s == s[..open] + ['"'] + s[open + 1..open + 1 + len] + ['"'] + s[open + 1 + len + 1..]
  {
    var end := open + 1 + len;
    assert s[end] == '"';
    SplitAround(s, open, end);
  }

  /** A sequence cut around one position. */
  lemma CutAt<T>(s: seq<T>, i: nat, x: T)
    requires i < |s| && s[i] == x
    ensures s == s[..i] + [x] + s[i + 1..]
  {
  }

  /** A sequence cut around two positions. */
  lemma SplitAround<T>(s: seq<T>, open: nat, end: nat)
    requires open < end < |s|
    ensures s == s[..open] + [s[open]] + s[open + 1..end] + [s[end]] + s[end + 1..]
  {
    assert s == s[..open] + s[open..];
    assert s[open..] == [s[open]] + s[open + 1..];
    assert s[open + 1..] == s[open + 1..end] + s[end..];
    assert s[end..] == [s[end]] + s[end + 1..];
  }

  /** The (key, value) pairs the property iterator yields from `buf`, in order. */
  function Properties(buf: string): seq<(string, string)>
    decreases QuoteCount(buf)
  {
    match ScanProperty(buf)
    case None => []
    case Some(step) => [(step.key, step.value)] + Properties(step.rest)
  }

  /** Keys and values never hold a `"`. */
  lemma {:induction false} PropertiesQuoteFree(buf: string)
    ensures var ps := Properties(buf);
      forall k :: 0 <= k < |ps| ==> '"' !in ps[k].0 && '"' !in ps[k].1
    decreases QuoteCount(buf)
  {
    match ScanProperty(buf)
    case None =>
    case Some(step) =>
      PropertiesQuoteFree(step.rest);
      assert Properties(buf)[1..] == Properties(step.rest);
  }

  /** Every pair takes exactly four `"`: the count of pairs is the count of `"` divided by four. */
  lemma {:induction false} PropertiesCount(buf: string)
    ensures |Properties(buf)| == QuoteCount(buf) / 4
    decreases QuoteCount(buf)
  {
    match ScanProperty(buf)
    case None =>
    case Some(step) =>
      PropertiesCount(step.rest);
  }

  /** The property iterator: the part of the block not scanned yet. */
  class PropertyIter {
    var buf: string

    /** `RawEntity::properties`: a new iterator from the start of the block. */
    constructor (entity: RawEntity)
      ensures buf == entity.buf
    {
      buf := entity.buf;
    }

    /** `next`: the next pair, after which `buf` is the text after the value's closing `"`. */
    method Next() returns (r: Option<(string, string)>)
      modifies this
      ensures match ScanProperty(old(buf))
        case None => r.None? && buf == old(buf)
        case Some(step) => r == Some((step.key, step.value)) && buf == step.rest
    {
      var first := TakeQuoted(buf);
      if first.None? {
        return None;
      }
      var second := TakeQuoted(first.value.2);
      if second.None? {
        return None;
      }
      r := Some((first.value.1, second.value.1));
      buf := second.value.2;
    }
  }

  /** Half of the property iterator's `next`: find a `"`, then the next `"` after it. */
  method TakeQuoted(s: string) returns (r: Option<(string, string, string)>)
    ensures r == ScanQuoted(s)
  {
    var open := Find(s, '"');
    if open.None? {
      return None;
    }
    var start := open.value + 1;
    var len := Find(s[start..], '"');
    if len.None? {
      return None;
    }
    var end := start + len.value;
    r := Some((s[..open.value], s[start..end], s[end + 1..]));
  }

  /** The value of the first pair whose key is `key`. */
  function Lookup(pairs: seq<(string, string)>, key: string): (r: Option<string>)
    ensures r.None? <==> forall i :: 0 <= i < |pairs| ==> pairs[i].0 != key
    ensures r.Some? ==> exists i :: 0 <= i < |pairs| && pairs[i] == (key, r.value)
                                    && forall j :: 0 <= j < i ==> pairs[j].0 != key
  {
    if |pairs| == 0 then None
    else if pairs[0].0 == key then
      assert pairs[0] == (key, pairs[0].1);
      Some(pairs[0].1)
    else
      var r := Lookup(pairs[1..], key);
      if r.Some? then
        var i :| 0 <= i < |pairs[1..]| && pairs[1..][i] == (key, r.value)
                 && forall j :: 0 <= j < i ==> pairs[1..][j].0 != key;
        assert pairs[i + 1] == (key, r.value);
        assert forall j :: 0 <= j < i + 1 ==> pairs[j].0 != key by {
          forall j | 0 <= j < i + 1 ensures pairs[j].0 != key {
            if j > 0 {
              assert pairs[j] == pairs[1..][j - 1];
            }
          }
        }
        r
      else
        assert forall i :: 0 <= i < |pairs| ==> pairs[i].0 != key by {
          forall i | 0 <= i < |pairs| ensures pairs[i].0 != key {
            if i > 0 {
              assert pairs[i] == pairs[1..][i - 1];
            }
          }
        }
        r
  }

  /** `prop`: the value of the entity's first pair with that key, or `NoSuchProperty`. */
  function Prop(entity: RawEntity, key: string): (r: Result<string, EntityParseError>)
    ensures r.Err? <==> forall i :: 0 <= i < |Properties(entity.buf)| ==> Properties(entity.buf)[i].0 != key
    ensures r.Err? ==> r.error == NoSuchProperty(key)
    ensures r.Ok? ==> exists i :: 0 <= i < |Properties(entity.buf)| && Properties(entity.buf)[i] == (key, r.value)
                        && forall j :: 0 <= j < i ==> Properties(entity.buf)[j].0 != key
  {
    match Lookup(Properties(entity.buf), key)
    case None => Err(NoSuchProperty(key))
    case Some(v) => Ok(v)
  }

  /** A later pair with the same key is never seen: the first pair wins. */
  lemma PropFirstWins(entity: RawEntity, key: string, i: nat)
    requires i < |Properties(entity.buf)| && Properties(entity.buf)[i].0 == key
    requires forall j :: 0 <= j < i ==> Properties(entity.buf)[j].0 != key
    ensures Prop(entity, key) == Ok(Properties(entity.buf)[i].1)
  {
    var ps := Properties(entity.buf);
    var r := Prop(entity, key);
    var k :| 0 <= k < |ps| && ps[k] == (key, r.value) && forall j :: 0 <= j < k ==> ps[j].0 != key;
  }

  // ---------------------------------------------------------------------
  // Property conversions: `EntityProp::parse`

  /** `str::split(' ')`: the pieces between single spaces, empty pieces included. */
  function Split(s: string): (r: seq<string>)
    ensures |r| >= 1
    decreases |s|
  {
    match Find(s, ' ')
    case None => [s]
    case Some(i) => [s[..i]] + Split(s[i + 1..])
  }

  /** No piece holds a space. */
  lemma {:induction false} SplitSpaceFree(s: string)
    ensures forall k :: 0 <= k < |Split(s)| ==> ' ' !in Split(s)[k]
    decreases |s|
  {
    match Find(s, ' ')
    case None =>
    case Some(i) =>
      SplitSpaceFree(s[i + 1..]);
      assert Split(s)[1..] == Split(s[i + 1..]);
  }

  /** The pieces joined back together with one space between neighbours. */
  function JoinSpaces(pieces: seq<string>): string
    requires |pieces| >= 1
  {
    if |pieces| == 1 then pieces[0] else pieces[0] + [' '] + JoinSpaces(pieces[1..])
  }

  /** Splitting loses nothing: joining the pieces with spaces gives back the text. */
  lemma {:induction false} SplitJoin(s: string)
    ensures JoinSpaces(Split(s)) == s
    decreases |s|
  {
    match Find(s, ' ')
    case None =>
    case Some(i) =>
      var rest := s[i + 1..];
      SplitJoin(rest);
      assert Split(s) == [s[..i]] + Split(rest);
      JoinCons(s[..i], Split(rest));
      CutAt(s, i, ' ');
  }

  lemma JoinCons(piece: string, pieces: seq<string>)
    requires |pieces| >= 1
    ensures JoinSpaces([piece] + pieces) == piece + [' '] + JoinSpaces(pieces)
  {
    assert ([piece] + pieces)[1..] == pieces;
  }

  /** Joining space-free pieces and splitting again gives back the pieces. */
  lemma {:induction false} JoinSplit(pieces: seq<string>)
    requires |pieces| >= 1 && forall k :: 0 <= k < |pieces| ==> ' ' !in pieces[k]
    ensures Split(JoinSpaces(pieces)) == pieces
    decreases |pieces|
  {
    if |pieces| > 1 {
      var s := JoinSpaces(pieces);
      var p := pieces[0];
      JoinSplit(pieces[1..]);
      assert s[..|p|] == p && s[|p|] == ' ';
      assert s[|p| + 1..] == JoinSpaces(pieces[1..]);
      FindFirstSpace(s, |p|);
    }
  }

  lemma FindFirstSpace(s: string, i: nat)
    requires i < |s| && s[i] == ' ' && ' ' !in s[..i]
    ensures Find(s, ' ') == Some(i)
  {
  }

  /**
   * The array conversion of `[T; N]`: the text split on single spaces, the
   * first `n` pieces converted in order. It fails with `ElementCount` when
   * fewer than `n` pieces exist, with the first failing conversion's error
   * otherwise; pieces after the `n`-th are not looked at.
   */
  method ParseArray<T>(raw: string, n: nat, convert: string -> Result<T, EntityParseError>)
    returns (r: Result<seq<T>, EntityParseError>)
    ensures r.Ok? <==> n <= |Split(raw)| && forall i :: 0 <= i < n ==> convert(Split(raw)[i]).Ok?
    ensures r.Ok? ==> |r.value| == n && forall i :: 0 <= i < n ==> convert(Split(raw)[i]) == Ok(r.value[i])
    ensures r.Err? ==> exists k :: 0 <= k < n && k <= |Split(raw)| && (forall i :: 0 <= i < k ==> convert(Split(raw)[i]).Ok?)
                         && if k < |Split(raw)| then convert(Split(raw)[k]) == Err(r.error) else r.error == ElementCount
  {
    var pieces := Split(raw);
    var values: seq<T> := [];
    var i := 0;
    while i < n
      invariant i <= n && i <= |pieces| && |values| == i
      invariant forall j :: 0 <= j < i ==> convert(pieces[j]) == Ok(values[j])
    {
      if i == |pieces| {
        return Err(ElementCount);
      }
      var value := convert(pieces[i]);
      if value.Err? {
        return Err(value.error);
      }
      values := values + [value.value];
      i := i + 1;
    }
    return Ok(values);
  }

  /** The `bool` conversion never fails: false exactly for the text `0`. */
  function ParseBool(raw: string): (r: Result<bool, EntityParseError>)
    ensures r.Ok? && (r.value <==> raw != "0")
  {
    Ok(raw != "0")
  }

  /** The `&str` conversion never fails and is the text itself. */
  function ParseStr(raw: string): (r: Result<string, EntityParseError>)
    ensures r == Ok(raw)
  {
    Ok(raw)
  }

  /** The `Option<T>` conversion of present text: `Some` of the inner conversion, whose error passes through. */
  function ParseOptional<T>(raw: string, convert: string -> Result<T, EntityParseError>): (r: Result<Option<T>, EntityParseError>)
    ensures r.Ok? <==> convert(raw).Ok?
    ensures r.Ok? ==> r.value == Some(convert(raw).value)
    ensures r.Err? ==> r.error == convert(raw).error
  {
    var v :- convert(raw);
    Ok(Some(v))
  }

  // ---------------------------------------------------------------------
  // `u8` conversion, as `str::parse::<u8>` does it

  predicate IsDigit(c: char)
  {
    '0' <= c <= '9'
  }

  function DigitValue(c: char): nat
    requires IsDigit(c)
  {
    c as int - '0' as int
  }

  /** The decimal value of `digits` read after a value `acc` already read. */
  function DecimalFrom(acc: nat, digits: string): nat
    requires forall k :: 0 <= k < |digits| ==> IsDigit(digits[k])
    decreases |digits|
  {
    if |digits| == 0 then acc else DecimalFrom(acc * 10 + DigitValue(digits[0]), digits[1..])
  }

  lemma {:induction false} DecimalFromGrows(acc: nat, digits: string)
    requires forall k :: 0 <= k < |digits| ==> IsDigit(digits[k])
    ensures DecimalFrom(acc, digits) >= acc
    ensures |digits| > 0 ==> DecimalFrom(acc, digits) >= acc * 10 + DigitValue(digits[0])
    decreases |digits|
  {
    if |digits| > 0 {
      DecimalFromGrows(acc * 10 + DigitValue(digits[0]), digits[1..]);
    }
  }

  /** The digit loop: each step multiplies by ten and adds the digit, rejecting a non-digit or a value past 255. */
  function ParseDigits(digits: string, acc: u8): Result<u8, EntityParseError>
    decreases |digits|
  {
    if |digits| == 0 then Ok(acc)
    else if !IsDigit(digits[0]) then Err(InvalidInt(InvalidDigit))
    else if acc * 10 + DigitValue(digits[0]) > 0xFF then Err(InvalidInt(PosOverflow))
    else ParseDigits(digits[1..], acc * 10 + DigitValue(digits[0]))
  }

  /** `u8::from_str`: an optional `+`, then one or more decimal digits whose value fits in a byte. */
  function ParseU8(raw: string): Result<u8, EntityParseError>
  {
    if |raw| == 0 then Err(InvalidInt(Empty))
    else if raw[0] == '+' && |raw| == 1 then Err(InvalidInt(InvalidDigit))
    else ParseDigits(if raw[0] == '+' then raw[1..] else raw, 0)
  }

  /** The digits the conversion reads: the text after an optional leading `+`. */
  function DigitsOf(raw: string): string
  {
    if |raw| > 0 && raw[0] == '+' then raw[1..] else raw
  }

  /** On all-digit input the loop gives the decimal value, or `PosOverflow` past 255. */
  lemma {:induction false} ParseDigitsValue(digits: string, acc: u8)
    requires forall k :: 0 <= k < |digits| ==> IsDigit(digits[k])
    ensures ParseDigits(digits, acc)
         == if DecimalFrom(acc, digits) <= 0xFF then Ok(DecimalFrom(acc, digits) as u8) else Err(InvalidInt(PosOverflow))
    decreases |digits|
  {
    if |digits| > 0 {
      var next := acc * 10 + DigitValue(digits[0]);
      DecimalFromGrows(acc, digits);
      if next <= 0xFF {
        ParseDigitsValue(digits[1..], next);
      }
    }
  }

  /** The loop fails on any input that is not all digits. */
  lemma {:induction false} ParseDigitsRejects(digits: string, acc: u8)
    requires exists k :: 0 <= k < |digits| && !IsDigit(digits[k])
    ensures ParseDigits(digits, acc).Err?
    decreases |digits|
  {
    if IsDigit(digits[0]) && acc * 10 + DigitValue(digits[0]) <= 0xFF {
      var k :| 0 <= k < |digits| && !IsDigit(digits[k]);
      assert digits[1..][k - 1] == digits[k];
      ParseDigitsRejects(digits[1..], acc * 10 + DigitValue(digits[0]));
    }
  }

  /**
   * `u8::from_str` accepts exactly an optional `+` and a non-empty run of
   * digits whose decimal value is at most 255, and yields that value.
   */
  lemma ParseU8Accepts(raw: string)
    ensures ParseU8(raw).Ok? <==>
      && |DigitsOf(raw)| > 0
      && (forall k :: 0 <= k < |DigitsOf(raw)| ==> IsDigit(DigitsOf(raw)[k]))
      && DecimalFrom(0, DigitsOf(raw)) <= 0xFF
    ensures ParseU8(raw).Ok? ==> ParseU8(raw).value == DecimalFrom(0, DigitsOf(raw))
  {
    var digits := DigitsOf(raw);
    if |raw| > 0 && !(raw[0] == '+' && |raw| == 1) {
      if forall k :: 0 <= k < |digits| ==> IsDigit(digits[k]) {
        ParseDigitsValue(digits, 0);
      } else {
        ParseDigitsRejects(digits, 0);
      }
    }
  }

  function DigitChar(d: nat): char
    requires d < 10
  {
    ('0' as int + d) as char
  }

  /** The shortest decimal text of a number. */
  function DecimalText(n: nat): (r: string)
    ensures |r| > 0 && forall k :: 0 <= k < |r| ==> IsDigit(r[k])
  {
    if n < 10 then [DigitChar(n)] else DecimalText(n / 10) + [DigitChar(n % 10)]
  }

  /** One more digit at the end multiplies what was read by ten and adds it. */
  lemma {:induction false} DecimalFromAppend(acc: nat, digits: string, c: char)
    requires forall k :: 0 <= k < |digits| ==> IsDigit(digits[k])
    requires IsDigit(c)
    ensures DecimalFrom(acc, digits + [c]) == DecimalFrom(acc, digits) * 10 + DigitValue(c)
    decreases |digits|
  {
    if |digits| == 0 {
      assert digits + [c] == [c];
    } else {
      assert (digits + [c])[1..] == digits[1..] + [c];
      DecimalFromAppend(acc * 10 + DigitValue(digits[0]), digits[1..], c);
    }
  }

  /** Reading a number's decimal text gives the number back. */
  lemma {:induction false} DecimalTextValue(n: nat)
    ensures DecimalFrom(0, DecimalText(n)) == n
  {
    if n >= 10 {
      DecimalTextValue(n / 10);
      DecimalFromAppend(0, DecimalText(n / 10), DigitChar(n % 10));
    }
  }

  /** Every byte value's decimal text converts back to it. */
  lemma ParseU8DecimalText(n: u8)
    ensures ParseU8(DecimalText(n)) == Ok(n)
  {
    var t := DecimalText(n);
    assert DigitsOf(t) == t;
    DecimalTextValue(n);
    ParseU8Accepts(t);
  }

  // ---------------------------------------------------------------------
  // Enumerations converted from a `u8` property

  datatype RenderMode =
    | Normal | Color | Texture | Glow | Solid | Additive | Unknown
    | AdditiveFractional | AlphaAdd | WorldSpaceGlow | SkipRender
  {
    /** The declared discriminant. */
    function Discriminant(): u8
    {
      match this
      case Normal => 0
      case Color => 1
      case Texture => 2
      case Glow => 3
      case Solid => 4
      case Additive => 5
      case Unknown => 6
      case AdditiveFractional => 7
      case AlphaAdd => 8
      case WorldSpaceGlow => 9
      case SkipRender => 10
    }
  }

  /** The render mode a byte names, as the conversion's match lists them. */
  function RenderModeFromU8(v: u8): Option<RenderMode>
  {
    match v
    case 0 => Some(RenderMode.Normal)
    case 1 => Some(Color)
    case 2 => Some(Texture)
    case 3 => Some(Glow)
    case 4 => Some(Solid)
    case 5 => Some(Additive)
    case 6 => Some(Unknown)
    case 7 => Some(AdditiveFractional)
    case 8 => Some(AlphaAdd)
    case 9 => Some(WorldSpaceGlow)
    case 10 => Some(SkipRender)
    case _ => None
  }

  /** The match accepts exactly 0..=10, each byte naming the mode with that discriminant, and every mode is reached. */
  lemma RenderModeTable(v: u8, m: RenderMode)
    ensures RenderModeFromU8(v).Some? <==> v <= 10
    ensures RenderModeFromU8(v) == Some(m) <==> m.Discriminant() == v
  {
  }

  /** `RenderMode::parse`: the `u8` conversion, then the table; a byte outside it is `InvalidEnumValue("RenderMode")`. */
  function ParseRenderMode(raw: string): (r: Result<RenderMode, EntityParseError>)
    ensures r.Ok? <==> ParseU8(raw).Ok? && ParseU8(raw).value <= 10
    ensures r.Ok? ==> r.value.Discriminant() == ParseU8(raw).value
    ensures ParseU8(raw).Err? ==> r == Err(ParseU8(raw).error)
    ensures ParseU8(raw).Ok? && ParseU8(raw).value > 10 ==> r == Err(InvalidEnumValue("RenderMode"))
  {
    var v :- ParseU8(raw);
    RenderModeTable(v, RenderMode.Normal);
    match RenderModeFromU8(v)
    case None => Err(InvalidEnumValue("RenderMode"))
    case Some(m) =>
      RenderModeTable(v, m);
      Ok(m)
  }

  datatype LightSpotStyle =
    | Normal | FlourescentFlicker | SlowStrongPulse | SlowPulseNoBlack | GentlePulse
    | FlickerA | FlickerB | CandleA | CandleB | CandleC | FastStrobe | SlowStrobe
    | UnderwaterLightMutation
  {
    /** The declared discriminant. */
    function Discriminant(): u8
    {
      match this
      case Normal => 0
      case FlourescentFlicker => 10
      case SlowStrongPulse => 2
      case SlowPulseNoBlack => 11
      case GentlePulse => 5
      case FlickerA => 1
      case FlickerB => 6
      case CandleA => 3
      case CandleB => 7
      case CandleC => 8
      case FastStrobe => 4
      case SlowStrobe => 9
      case UnderwaterLightMutation => 12
    }
  }

  /** The light style a byte names, as the conversion's match lists them. */
  function LightSpotStyleFromU8(v: u8): Option<LightSpotStyle>
  {
    match v
    case 0 => Some(LightSpotStyle.Normal)
    case 10 => Some(FlourescentFlicker)
    case 2 => Some(SlowStrongPulse)
    case 11 => Some(SlowPulseNoBlack)
    case 5 => Some(GentlePulse)
    case 1 => Some(FlickerA)
    case 6 => Some(FlickerB)
    case 3 => Some(CandleA)
    case 7 => Some(CandleB)
    case 8 => Some(CandleC)
    case 4 => Some(FastStrobe)
    case 9 => Some(SlowStrobe)
    case 12 => Some(UnderwaterLightMutation)
    case _ => None
  }

  /** The match accepts exactly 0..=12, each byte naming the style with that discriminant, and every style is reached. */
  lemma LightSpotStyleTable(v: u8, s: LightSpotStyle)
    ensures LightSpotStyleFromU8(v).Some? <==> v <= 12
    ensures LightSpotStyleFromU8(v) == Some(s) <==> s.Discriminant() == v
  {
  }

  /** `LightSpotStyle::parse`: the `u8` conversion, then the table; a byte outside it is `InvalidEnumValue("LightSpotStyle")`. */
  function ParseLightSpotStyle(raw: string): (r: Result<LightSpotStyle, EntityParseError>)
    ensures r.Ok? <==> ParseU8(raw).Ok? && ParseU8(raw).value <= 12
    ensures r.Ok? ==> r.value.Discriminant() == ParseU8(raw).value
    ensures ParseU8(raw).Err? ==> r == Err(ParseU8(raw).error)
    ensures ParseU8(raw).Ok? && ParseU8(raw).value > 12 ==> r == Err(InvalidEnumValue("LightSpotStyle"))
  {
    var v :- ParseU8(raw);
    LightSpotStyleTable(v, LightSpotStyle.Normal);
    match LightSpotStyleFromU8(v)
    case None => Err(InvalidEnumValue("LightSpotStyle"))
    case Some(s) =>
      LightSpotStyleTable(v, s);
      Ok(s)
  }
}
