/** The `name:hex` entries of `general.tensor_hashes`: printing, parsing and checking.
    Strings are UTF-8 code units. */
module HashEntries {
  import opened Machine
  import opened Ordering
  import opened Metadata

  // ---------------------------------------------------------------- base 16 (RFC 4648, section 8)

  function HexDigit(n: nat): (c: char)
    requires n < 16
    ensures c != ':'
  {
    if n < 10 then '0' + n as char else 'a' + (n - 10) as char
  }

  /** `hex_nibble` */
  function HexNibble(c: char): Option<nat> {
    if '0' <= c <= '9' then Some((c - '0') as int)
    else if 'a' <= c <= 'f' then Some((c - 'a') as int + 10)
    else if 'A' <= c <= 'F' then Some((c - 'A') as int + 10)
    else None
  }

  function ByteHex(b: U8): string {
    [HexDigit(b / 16), HexDigit(b % 16)]
  }

  function HexOf(bytes: Bytes): string {
    if bytes == [] then "" else HexOf(bytes[..|bytes| - 1]) + ByteHex(bytes[|bytes| - 1])
  }

  /** `hash_to_hex` */
  method HashToHex(hash: Hash32) returns (hex: string)
    ensures hex == HexOf(hash)
  {
    hex := "";
    for i := 0 to 32
      invariant hex == HexOf(hash[..i])
    {
      assert hash[..i + 1][..i] == hash[..i];
      hex := hex + ByteHex(hash[i]);
    }
    assert hash[..32] == hash;
  }

  /** One pair of hex characters. */
  function PairByte(hi: char, lo: char): Option<U8> {
    match HexNibble(hi)
    case None => None
    case Some(h) =>
      match HexNibble(lo)
      case None => None
      case Some(l) => if 16 * h + l < 256 then Some(16 * h + l) else None
  }

  /** The bytes of an even number of hex characters; `None` at the first bad character. */
  function Unhex(hex: string): Option<Bytes>
    requires |hex| % 2 == 0
  {
    if hex == "" then Some([])
    else
      var n := |hex| - 2;
      match Unhex(hex[..n])
      case None => None
      case Some(bytes) =>
        match PairByte(hex[n], hex[n + 1])
        case None => None
        case Some(b) => Some(bytes + [b])
  }

  lemma {:induction false} UnhexFails(hex: string, k: nat)
    requires |hex| % 2 == 0 && 2 * k <= |hex| && Unhex(hex[..2 * k]).None?
    ensures Unhex(hex).None?
    decreases |hex|
  {
    if 2 * k < |hex| {
      var n := |hex| - 2;
      assert hex[..n][..2 * k] == hex[..2 * k];
      UnhexFails(hex[..n], k);
    } else {
      assert hex[..2 * k] == hex;
    }
  }

  /** `hex_to_bytes32`, which its caller hands 64 characters; fills a fixed array. */
  method HexToBytes32(hex: string) returns (r: Option<Hash32>)
    requires |hex| == 64
    ensures match Unhex(hex) case None => r == None case Some(b) => |b| == 32 && r == Some(b)
  {
    hide PairByte;
    UnhexLength(hex);
    var out := new U8[32](_ => 0);
    for i := 0 to 32
      invariant Unhex(hex[..2 * i]) == Some(out[..i])
    {
      assert hex[..2 * (i + 1)][..2 * i] == hex[..2 * i];
      var b := PairByte(hex[2 * i], hex[2 * i + 1]);
      if b.None? {
        UnhexFails(hex, i + 1);
        return None;
      }
      out[i] := b.value;
      assert out[..i + 1] == out[..i] + [b.value];
    }
    assert hex[..64] == hex && out[..32] == out[..];
    return Some(out[..]);
  }

  lemma {:induction false} UnhexLength(hex: string)
    requires |hex| % 2 == 0
    ensures Unhex(hex).Some? ==> |Unhex(hex).value| == |hex| / 2
  {
    if hex != "" {
      UnhexLength(hex[..|hex| - 2]);
    }
  }

  lemma {:induction false} HexShape(bytes: Bytes)
    ensures |HexOf(bytes)| == 2 * |bytes|
    ensures forall c :: c in HexOf(bytes) ==> c != ':'
  {
    if bytes != [] {
      HexShape(bytes[..|bytes| - 1]);
    }
  }

  lemma PairOfByte(b: U8)
    ensures PairByte(HexDigit(b / 16), HexDigit(b % 16)) == Some(b)
  {
    assert HexNibble(HexDigit(b / 16)) == Some(b / 16);
    assert HexNibble(HexDigit(b % 16)) == Some(b % 16);
  }

  lemma UnhexAppend(hex: string, hi: char, lo: char, bytes: Bytes, b: U8)
    requires |hex| % 2 == 0 && Unhex(hex) == Some(bytes) && PairByte(hi, lo) == Some(b)
    ensures Unhex(hex + [hi, lo]) == Some(bytes + [b])
  {
    hide PairByte;
    var all := hex + [hi, lo];
    assert all[..|all| - 2] == hex;
  }

  /** Parsing inverts printing. */
  lemma {:induction false} UnhexOfHex(bytes: Bytes)
    ensures |HexOf(bytes)| % 2 == 0 && Unhex(HexOf(bytes)) == Some(bytes)
  {
    hide PairByte, HexDigit, Unhex;
    HexShape(bytes);
    if bytes == [] {
      UnhexNothing();
    } else {
      var n := |bytes| - 1;
      HexShape(bytes[..n]);
      UnhexOfHex(bytes[..n]);
      PairOfByte(bytes[n]);
      UnhexAppend(HexOf(bytes[..n]), HexDigit(bytes[n] / 16), HexDigit(bytes[n] % 16), bytes[..n], bytes[n]);
      assert bytes == bytes[..n] + [bytes[n]];
    }
  }

  lemma UnhexNothing()
    ensures Unhex("") == Some([])
  {
  }

  function LowerChar(c: char): char {
    if 'A' <= c <= 'F' then 'a' + (c - 'A') else c
  }

  function Lower(s: string): (r: string)
    ensures |r| == |s|
  {
    seq(|s|, i requires 0 <= i < |s| => LowerChar(s[i]))
  }

  lemma ByteOfPair(hi: char, lo: char)
    requires PairByte(hi, lo).Some?
    ensures ByteHex(PairByte(hi, lo).value) == [LowerChar(hi), LowerChar(lo)]
  {
    var h, l := HexNibble(hi).value, HexNibble(lo).value;
    assert h < 16 && l < 16;
    assert (16 * h + l) / 16 == h && (16 * h + l) % 16 == l;
    assert HexDigit(h) == LowerChar(hi) && HexDigit(l) == LowerChar(lo);
  }

  lemma UnhexLast(hex: string)
    requires hex != "" && |hex| % 2 == 0 && Unhex(hex).Some?
    ensures var n := |hex| - 2;
            && Unhex(hex[..n]).Some? && PairByte(hex[n], hex[n + 1]).Some?
            && Unhex(hex).value == Unhex(hex[..n]).value + [PairByte(hex[n], hex[n + 1]).value]
  {
    hide PairByte;
  }

  lemma HexAppend(bytes: Bytes, b: U8)
    ensures HexOf(bytes + [b]) == HexOf(bytes) + ByteHex(b)
  {
    hide ByteHex;
    assert (bytes + [b])[..|bytes|] == bytes;
  }

  lemma HexOfNothing()
    ensures HexOf([]) == ""
  {
  }

  /** Printing what was parsed gives the lower-case form of the input, whatever mixture of
      cases it was in. */
  lemma {:induction false} HexOfUnhex(hex: string)
    requires |hex| % 2 == 0 && Unhex(hex).Some?
    ensures HexOf(Unhex(hex).value) == Lower(hex)
  {
    hide PairByte, HexDigit, HexNibble, LowerChar, ByteHex, HexOf, Unhex;
    if hex == "" {
      UnhexNothing();
      HexOfNothing();
    } else {
      var n := |hex| - 2;
      UnhexLast(hex);
      HexOfUnhex(hex[..n]);
      HexAppend(Unhex(hex[..n]).value, PairByte(hex[n], hex[n + 1]).value);
      ByteOfPair(hex[n], hex[n + 1]);
      assert Lower(hex) == Lower(hex[..n]) + [LowerChar(hex[n]), LowerChar(hex[n + 1])];
    }
  }

  // ---------------------------------------------------------------- entries

  datatype EntryError = NotAnArray | NotAString | MissingColon | WrongLength | BadHex

  /** `rfind(':')` */
  function RFind(s: string, c: char): (r: Option<nat>)
    ensures match r
            case None => c !in s
            case Some(i) => i < |s| && s[i] == c && c !in s[i + 1..]
  {
    if s == "" then None
    else if s[|s| - 1] == c then Some(|s| - 1)
    else
      match RFind(s[..|s| - 1], c)
      case None => None
      case Some(i) =>
        assert s[i + 1..] == s[..|s| - 1][i + 1..] + [s[|s| - 1]];
        Some(i)
  }

  function ParseEntry(item: MetaValue): Result<(string, Hash32), EntryError> {
    match item
    case Str(s) => (
      match RFind(s, ':')
      case None => Err(MissingColon)
      case Some(colon) =>
        var hex := s[colon + 1..];
        if |hex| != 64 then Err(WrongLength)
        else match Unhex(hex)
          case None => Err(BadHex)
          case Some(b) => if |b| == 32 then Ok((s[..colon], b)) else Err(BadHex))
    case _ => Err(NotAString)
  }

  type Table = map<string, Hash32>

  /** The table built from the entries in order; a later entry replaces an earlier one. */
  function Entries(items: seq<MetaValue>): Result<Table, EntryError> {
    if items == [] then Ok(map[])
    else match Entries(items[..|items| - 1])
      case Err(e) => Err(e)
      case Ok(table) =>
        match ParseEntry(items[|items| - 1])
        case Err(e) => Err(e)
        case Ok((name, hash)) => Ok(table[name := hash])
  }

  /** What `from_metadata` makes of the metadata value, if there is one. */
  function ValidatorOf(value: Option<MetaValue>): Result<Option<Table>, EntryError> {
    match value
    case None => Ok(None)
    case Some(Array(items)) => (match Entries(items) case Err(e) => Err(e) case Ok(t) => Ok(Some(t)))
    case Some(_) => Err(NotAnArray)
  }

  lemma {:induction false} EntryErrorsStick(items: seq<MetaValue>, i: nat)
    requires i <= |items| && Entries(items[..i]).Err?
    ensures Entries(items) == Err(Entries(items[..i]).error)
    decreases |items|
  {
    if i < |items| {
      assert items[..|items| - 1][..i] == items[..i];
      EntryErrorsStick(items[..|items| - 1], i);
    } else {
      assert items[..i] == items;
    }
  }

  /** `TensorHashValidator::from_metadata` */
  method FromMetadata(value: Option<MetaValue>) returns (r: Result<Option<Table>, EntryError>)
    ensures r == ValidatorOf(value)
  {
    if value.None? {
      return Ok(None);
    }
    if !value.value.Array? {
      return Err(NotAnArray);
    }
    var items := value.value.items;
    var entries: Table := map[];
    for i := 0 to |items|
      invariant Entries(items[..i]) == Ok(entries)
    {
      assert items[..i + 1][..i] == items[..i];
      var parsed := ReadEntry(items[i]);
      if parsed.Err? {
        EntryErrorsStick(items, i + 1);
        return Err(parsed.error);
      }
      entries := entries[parsed.value.0 := parsed.value.1];
    }
    assert items[..|items|] == items;
    return Ok(Some(entries));
  }

  /** The checks on one array element, in the order they are made. */
  method ReadEntry(item: MetaValue) returns (r: Result<(string, Hash32), EntryError>)
    ensures r == ParseEntry(item)
  {
    if !item.Str? {
      return Err(NotAString);
    }
    var s := item.text;
    var colon := RFind(s, ':');
    if colon.None? {
      return Err(MissingColon);
    }
    var hex := s[colon.value + 1..];
    if |hex| != 64 {
      return Err(WrongLength);
    }
    var hash := HexToBytes32(hex);
    if hash.None? {
      return Err(BadHex);
    }
    return Ok((s[..colon.value], hash.value));
  }

  /** `validate`: unknown names pass, known ones must hash to their entry. */
  predicate Accepts(table: Table, hash: Bytes -> Hash32, name: string, data: Bytes) {
    name in table ==> hash(data) == table[name]
  }

  // ---------------------------------------------------------------- printing entries

  function PrintEntry(name: string, hash: Hash32): string {
    name + ":" + HexOf(hash)
  }

  function PrintEntries(pairs: seq<(string, Hash32)>): (items: seq<MetaValue>)
    ensures |items| == |pairs|
  {
    seq(|pairs|, i requires 0 <= i < |pairs| => Str(PrintEntry(pairs[i].0, pairs[i].1)))
  }

  lemma {:induction false} RFindAt(s: string, c: char, i: nat)
    requires i < |s| && s[i] == c && forall j :: i < j < |s| ==> s[j] != c
    ensures RFind(s, c) == Some(i)
  {
    if i < |s| - 1 {
      RFindAt(s[..|s| - 1], c, i);
    }
  }

  lemma LastColon(name: string, tail: string)
    requires ':' !in tail
    ensures RFind(name + ":" + tail, ':') == Some(|name|)
  {
    var head := name + ":";
    var s := head + tail;
    assert s[|name|] == ':' && s[|name| + 1..] == tail;
    forall j | |name| < j < |s|
      ensures s[j] != ':'
    {
      assert s[j] == s[|name| + 1..][j - |name| - 1];
    }
    RFindAt(s, ':', |name|);
  }

  /** Every name, colons included, and every hash survive a print and a parse. */
  lemma EntryRoundTrip(name: string, hash: Hash32)
    ensures ParseEntry(Str(PrintEntry(name, hash))) == Ok((name, hash))
  {
    hide RFind, Unhex, HexOf;
    HexShape(hash);
    UnhexOfHex(hash);
    LastColon(name, HexOf(hash));
    var s := PrintEntry(name, hash);
    assert s[..|name|] == name && s[|name| + 1..] == HexOf(hash);
  }

  /** The map a list of pairs stands for. */
  function TableOf(pairs: seq<(string, Hash32)>): Table {
    if pairs == [] then map[]
    else
      var n := |pairs| - 1;
      TableOf(pairs[..n])[pairs[n].0 := pairs[n].1]
  }

  function PairName(p: (string, Hash32)): string {
    p.0
  }

  lemma {:induction false} TableOfDistinct(pairs: seq<(string, Hash32)>)
    requires UniqueBy(pairs, PairName)
    ensures forall name, hash :: name in TableOf(pairs) && TableOf(pairs)[name] == hash <==> (name, hash) in pairs
  {
    if pairs != [] {
      var n := |pairs| - 1;
      TableOfDistinct(pairs[..n]);
      assert pairs == pairs[..n] + [pairs[n]];
      forall p | p in pairs[..n]
        ensures p.0 != pairs[n].0
      {
        var i :| 0 <= i < n && pairs[i] == p;
        assert PairName(pairs[i]) != PairName(pairs[n]);
      }
    }
  }

  /** A printed array of entries parses to the table of its pairs; with distinct names that
      table holds precisely the pairs, so a blob under a listed name is accepted exactly when
      its hash is the listed one, and any other name is let through. */
  lemma {:induction false} PrintedEntriesParse(pairs: seq<(string, Hash32)>)
    ensures ValidatorOf(Some(Array(PrintEntries(pairs)))) == Ok(Some(TableOf(pairs)))
  {
    if pairs != [] {
      var n := |pairs| - 1;
      PrintedEntriesParse(pairs[..n]);
      assert PrintEntries(pairs)[..n] == PrintEntries(pairs[..n]);
      EntryRoundTrip(pairs[n].0, pairs[n].1);
    }
  }

  lemma PrintedEntriesValidate(pairs: seq<(string, Hash32)>, hash: Bytes -> Hash32, name: string, data: Bytes)
    requires UniqueBy(pairs, PairName)
    ensures ValidatorOf(Some(Array(PrintEntries(pairs)))).Ok?
    ensures ValidatorOf(Some(Array(PrintEntries(pairs)))).value.Some?
    ensures Accepts(ValidatorOf(Some(Array(PrintEntries(pairs)))).value.value, hash, name, data) <==>
            ((name, hash(data)) in pairs || forall h :: (name, h) !in pairs)
  {
    PrintedEntriesParse(pairs);
    TableOfDistinct(pairs);
    var table := TableOf(pairs);
    if name in table {
      assert (name, table[name]) in pairs;
    }
  }

  // ---------------------------------------------------------------- which entries are accepted

  const DIGITS := "0123456789abcdef"

  predicate IsHexDigit(c: char) {
    '0' <= c <= '9' || 'a' <= c <= 'f' || 'A' <= c <= 'F'
  }

  /** Nibbles read and print as their place in the usual row of digits, in either case. */
  lemma NibblesAreDigits(c: char, n: nat)
    requires n < 16
    ensures HexNibble(c).Some? <==> IsHexDigit(c)
    ensures HexNibble(c) == Some(n) <==> LowerChar(c) == DIGITS[n]
    ensures HexDigit(n) == DIGITS[n]
  {
  }

  lemma {:induction false} UnhexIff(hex: string)
    requires |hex| % 2 == 0
    ensures Unhex(hex).Some? <==> forall i :: 0 <= i < |hex| ==> IsHexDigit(hex[i])
    decreases |hex|
  {
    hide HexNibble, IsHexDigit;
    if hex != "" {
      var n := |hex| - 2;
      UnhexIff(hex[..n]);
      PairIff(hex[n], hex[n + 1]);
      assert forall i :: 0 <= i < n ==> hex[..n][i] == hex[i];
    }
  }

  lemma PairIff(hi: char, lo: char)
    ensures PairByte(hi, lo).Some? <==> IsHexDigit(hi) && IsHexDigit(lo)
    ensures PairByte(hi, lo).Some? ==>
              PairByte(hi, lo).value == 16 * HexNibble(hi).value + HexNibble(lo).value
  {
    NibblesAreDigits(hi, 0);
    NibblesAreDigits(lo, 0);
    assert HexNibble(hi).Some? ==> HexNibble(hi).value < 16;
    assert HexNibble(lo).Some? ==> HexNibble(lo).value < 16;
  }

  /** Byte `k` of a decoded string is its characters `2 * k` and `2 * k + 1`. */
  lemma {:induction false} UnhexAt(hex: string, k: nat)
    requires |hex| % 2 == 0 && Unhex(hex).Some? && 2 * k + 1 < |hex|
    ensures |Unhex(hex).value| == |hex| / 2
    ensures PairByte(hex[2 * k], hex[2 * k + 1]) == Some(Unhex(hex).value[k])
    decreases |hex|
  {
    hide PairByte;
    var n := |hex| - 2;
    UnhexLength(hex);
    UnhexLength(hex[..n]);
    UnhexLast(hex);
    if 2 * k < n {
      UnhexAt(hex[..n], k);
    }
  }

  /** A string ends in a colon and 64 hex digits. */
  predicate IsEntry(s: string) {
    |s| >= 65 && s[|s| - 65] == ':' && forall i :: |s| - 64 <= i < |s| ==> IsHexDigit(s[i])
  }

  /** An entry is accepted exactly when it is a name, a colon and 64 hex digits of either case;
      the name is everything in front, and the hash is what the digits spell. */
  lemma EntryAcceptedIff(s: string)
    ensures ParseEntry(Str(s)).Ok? <==> IsEntry(s)
    ensures IsEntry(s) ==>
              ParseEntry(Str(s)).value.0 == s[..|s| - 65] && Some(ParseEntry(Str(s)).value.1) == Unhex(s[|s| - 64..])
  {
    hide Unhex, HexNibble;
    if IsEntry(s) {
      NoColonDigits();
      RFindAt(s, ':', |s| - 65);
      UnhexLength(s[|s| - 64..]);
      UnhexIff(s[|s| - 64..]);
    } else if RFind(s, ':').Some? {
      var hex := s[RFind(s, ':').value + 1..];
      if |hex| == 64 {
        UnhexIff(hex);
        assert forall i :: 0 <= i < 64 ==> hex[i] == s[|s| - 64 + i];
      }
    }
  }

  lemma NoColonDigits()
    ensures !IsHexDigit(':')
  {
  }

  // ---------------------------------------------------------------- what the table holds

  /** The last of the entries under a name. */
  function LastEntry(items: seq<MetaValue>, name: string): Option<Hash32> {
    if items == [] then None
    else
      var n := |items| - 1;
      match ParseEntry(items[n])
      case Ok((key, hash)) => if key == name then Some(hash) else LastEntry(items[..n], name)
      case Err(_) => LastEntry(items[..n], name)
  }

  /** A table is built exactly if every element is an entry, and then holds for each name the
      last one given. */
  lemma {:induction false} EntriesIff(items: seq<MetaValue>, name: string)
    ensures Entries(items).Ok? <==> forall i :: 0 <= i < |items| ==> ParseEntry(items[i]).Ok?
    ensures Entries(items).Ok? ==>
              (if name in Entries(items).value then Some(Entries(items).value[name]) else None)
              == LastEntry(items, name)
  {
    hide ParseEntry;
    if items != [] {
      EntriesIff(items[..|items| - 1], name);
    }
  }

  /** Without the key there is no validator; with it there is one exactly if the value is an
      array of entries, and that one holds the last entry of each name. */
  lemma ValidatorIff(value: Option<MetaValue>, name: string)
    ensures ValidatorOf(value) == Ok(None) <==> value.None?
    ensures value.Some? ==>
              (ValidatorOf(value).Ok? <==>
               value.value.Array?
               && forall i :: 0 <= i < |value.value.items| ==> ParseEntry(value.value.items[i]).Ok?)
    ensures value.Some? && ValidatorOf(value).Ok? ==>
              var table := ValidatorOf(value).value.value;
              (if name in table then Some(table[name]) else None) == LastEntry(value.value.items, name)
  {
    hide ParseEntry, Entries;
    if value.Some? && value.value.Array? {
      EntriesIff(value.value.items, name);
    }
  }
}
