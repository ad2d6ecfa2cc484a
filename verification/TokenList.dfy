/** The comma-separated token lists of `--prompt-tokens` and `--force-tokens`. */
module TokenList {
  import opened Machine
  import opened Text

  /** The Unicode `White_Space` characters, which `str::trim` removes. */
  predicate IsSpace(c: char) {
    var u := c as int;
    || 0x9 <= u <= 0xD || u == 0x20 || u == 0x85 || u == 0xA0 || u == 0x1680
    || 0x2000 <= u <= 0x200A || u == 0x2028 || u == 0x2029 || u == 0x202F || u == 0x205F || u == 0x3000
  }

  predicate Blank(s: string) {
    forall c :: c in s ==> IsSpace(c)
  }

  function TrimStart(s: string): string {
    if s != "" && IsSpace(s[0]) then TrimStart(s[1..]) else s
  }

  function TrimEnd(s: string): string {
    if s != "" && IsSpace(s[|s| - 1]) then TrimEnd(s[..|s| - 1]) else s
  }

  function Trim(s: string): string {
    TrimEnd(TrimStart(s))
  }

  /** `split(',')`: always at least one field. */
  function Split(s: string): (fields: seq<string>)
    ensures fields != []
  {
    if s == "" then [""]
    else
      var rest := Split(s[1..]);
      if s[0] == ',' then [""] + rest else [[s[0]] + rest[0]] + rest[1..]
  }

  function Join(fields: seq<string>): string
    requires fields != []
  {
    if |fields| == 1 then fields[0] else fields[0] + "," + Join(fields[1..])
  }

  datatype TokenError = EmptyField(index: nat) | NotAU32(index: nat)

  /** What one field does: nothing, one token, or an error. */
  function FieldTokens(field: string, index: nat, count: nat): Result<seq<U32>, TokenError> {
    var trimmed := Trim(field);
    if trimmed == "" then
      if index == 0 || index + 1 == count then Ok([]) else Err(EmptyField(index))
    else match ParseU32(trimmed)
      case None => Err(NotAU32(index))
      case Some(id) => Ok([id])
  }

  /** The tokens of the fields before `index`, or the first error among them. */
  function Tokens(fields: seq<string>, index: nat): Result<seq<U32>, TokenError>
    requires index <= |fields|
  {
    if index == 0 then Ok([])
    else match Tokens(fields, index - 1)
      case Err(e) => Err(e)
      case Ok(ids) =>
        match FieldTokens(fields[index - 1], index - 1, |fields|)
        case Err(e) => Err(e)
        case Ok(more) => Ok(ids + more)
  }

  function Parsed(spec: string): Result<seq<U32>, TokenError> {
    Tokens(Split(spec), |Split(spec)|)
  }

  lemma {:induction false} ErrorsStick(fields: seq<string>, i: nat, j: nat)
    requires i <= j <= |fields| && Tokens(fields, i).Err?
    ensures Tokens(fields, j) == Tokens(fields, i)
  {
    if i < j {
      ErrorsStick(fields, i, j - 1);
    }
  }

  /** `parse_token_ids` */
  method ParseTokenIds(spec: string) returns (r: Result<seq<U32>, TokenError>)
    ensures r == Parsed(spec)
  {
    var ids: seq<U32> := [];
    var fields := Split(spec);
    for index := 0 to |fields|
      invariant Tokens(fields, index) == Ok(ids)
    {
      var trimmed := Trim(fields[index]);
      if trimmed == "" {
        if index == 0 || index + 1 == |fields| {
          assert ids + [] == ids;
          continue;
        }
        ErrorsStick(fields, index + 1, |fields|);
        return Err(EmptyField(index));
      }
      var id := ParseU32(trimmed);
      if id.None? {
        ErrorsStick(fields, index + 1, |fields|);
        return Err(NotAU32(index));
      }
      ids := ids + [id.value];
    }
    return Ok(ids);
  }

  /** A list is accepted exactly when each field is: a number below 2^32, or blank and at
      either end. One blank field in the interior, or one number that does not fit, rejects
      the whole list. */
  lemma {:induction false} AcceptedIff(fields: seq<string>, index: nat)
    requires index <= |fields|
    ensures Tokens(fields, index).Ok? <==>
            forall i :: 0 <= i < index ==>
              if Trim(fields[i]) == "" then i == 0 || i + 1 == |fields| else ParseU32(Trim(fields[i])).Some?
  {
    if index > 0 {
      AcceptedIff(fields, index - 1);
    }
  }

  // ---------------------------------------------------------------- splitting undoes joining

  predicate NoComma(s: string) {
    forall c :: c in s ==> c != ','
  }

  lemma {:induction false} SplitField(field: string, rest: string)
    requires NoComma(field)
    ensures Split(field + "," + rest) == [field] + Split(rest)
  {
    var s := field + "," + rest;
    if field == "" {
      assert s[1..] == rest;
    } else {
      assert field[0] in field;
      assert forall c :: c in field[1..] ==> c in field;
      assert s[1..] == field[1..] + "," + rest;
      SplitField(field[1..], rest);
      assert [field[0]] + field[1..] == field;
    }
  }

  lemma {:induction false} SplitOne(field: string)
    requires NoComma(field)
    ensures Split(field) == [field]
  {
    if field != "" {
      assert field[0] in field;
      assert forall c :: c in field[1..] ==> c in field;
      SplitOne(field[1..]);
      assert [field[0]] + field[1..] == field;
    }
  }

  lemma {:induction false} SplitJoin(fields: seq<string>)
    requires fields != [] && forall f :: f in fields ==> NoComma(f)
    ensures Split(Join(fields)) == fields
  {
    if |fields| == 1 {
      SplitOne(fields[0]);
    } else {
      SplitJoin(fields[1..]);
      SplitField(fields[0], Join(fields[1..]));
    }
  }

  // ---------------------------------------------------------------- trimming undoes padding

  lemma {:induction false} TrimStartPadding(pad: string, s: string)
    requires Blank(pad) && (s == "" || !IsSpace(s[0]))
    ensures TrimStart(pad + s) == s
  {
    if pad == "" {
      assert pad + s == s;
    } else {
      assert pad[0] in pad;
      assert (pad + s)[1..] == pad[1..] + s;
      TrimStartPadding(pad[1..], s);
    }
  }

  lemma {:induction false} TrimEndPadding(s: string, pad: string)
    requires Blank(pad) && (s == "" || !IsSpace(s[|s| - 1]))
    ensures TrimEnd(s + pad) == s
  {
    if pad == "" {
      assert s + pad == s;
    } else {
      var n := |pad| - 1;
      assert pad[n] in pad;
      assert (s + pad)[..|s| + n] == s + pad[..n];
      TrimEndPadding(s, pad[..n]);
    }
  }

  lemma TrimPadded(left: string, word: string, right: string)
    requires Blank(left) && Blank(right)
    requires word != "" ==> !IsSpace(word[0]) && !IsSpace(word[|word| - 1])
    ensures Trim(left + word + right) == word
  {
    if word == "" {
      assert left + word + right == (left + right) + "";
      TrimStartPadding(left + right, "");
    } else {
      assert left + word + right == left + (word + right);
      TrimStartPadding(left, word + right);
      TrimEndPadding(word, right);
    }
  }

  // ---------------------------------------------------------------- printing and parsing back

  /** How a list may be laid out: white space around each number, and an optional blank
      field, that is a comma, in front of the list and behind it. */
  datatype Layout = Layout(left: seq<string>, right: seq<string>, lead: Option<string>, trail: Option<string>)

  ghost predicate ValidLayout(ids: seq<U32>, l: Layout) {
    && |l.left| == |l.right| == |ids|
    && (forall i :: 0 <= i < |ids| ==> Blank(l.left[i]) && Blank(l.right[i]))
    && (l.lead.Some? ==> Blank(l.lead.value))
    && (l.trail.Some? ==> Blank(l.trail.value))
  }

  function Numbers(ids: seq<U32>, l: Layout): (fields: seq<string>)
    requires |l.left| == |l.right| == |ids|
    ensures |fields| == |ids|
  {
    seq(|ids|, i requires 0 <= i < |ids| => l.left[i] + Decimal(ids[i]) + l.right[i])
  }

  function Ends(field: Option<string>): seq<string> {
    match field
    case None => []
    case Some(blank) => [blank]
  }

  /** The fields of a printed list; an empty list without outer commas is one empty field. */
  function PrintedFields(ids: seq<U32>, l: Layout): (fields: seq<string>)
    requires |l.left| == |l.right| == |ids|
    ensures fields != []
  {
    var fields := Ends(l.lead) + Numbers(ids, l) + Ends(l.trail);
    if fields == [] then [""] else fields
  }

  lemma FieldShapes(id: U32, left: string, right: string, index: nat, count: nat)
    requires Blank(left) && Blank(right)
    ensures NoComma(left)
    ensures NoComma(left + Decimal(id) + right)
    ensures FieldTokens(left + Decimal(id) + right, index, count) == Ok([id])
    ensures index == 0 || index + 1 == count ==> FieldTokens(left, index, count) == Ok([])
  {
    var d := Decimal(id);
    assert d[0] in d && d[|d| - 1] in d;
    TrimPadded(left, d, right);
    assert left + "" + "" == left;
    TrimPadded(left, "", "");
    ParseU32OfDecimal(id);
  }

  /** Where everything is in a printed list. */
  lemma PrintedShape(ids: seq<U32>, l: Layout)
    requires |l.left| == |l.right| == |ids|
    ensures var fields, lead := PrintedFields(ids, l), |Ends(l.lead)|;
            && (l.lead.Some? ==> fields[0] == l.lead.value)
            && lead + |ids| <= |fields| <= lead + |ids| + 1
            && (forall i :: 0 <= i < |ids| ==> fields[lead + i] == l.left[i] + Decimal(ids[i]) + l.right[i])
            && (lead + |ids| < |fields| ==>
                fields[lead + |ids|] == if l.trail.Some? then l.trail.value else "")
  {
  }

  lemma {:induction false} TokensOfPrinted(ids: seq<U32>, l: Layout, k: nat)
    requires ValidLayout(ids, l) && k <= |ids|
    ensures |Ends(l.lead)| + |ids| <= |PrintedFields(ids, l)|
    ensures Tokens(PrintedFields(ids, l), |Ends(l.lead)| + k) == Ok(ids[..k])
  {
    hide PrintedFields, FieldTokens;
    var fields, lead := PrintedFields(ids, l), |Ends(l.lead)|;
    PrintedShape(ids, l);
    assert Tokens(fields, 0) == Ok([]) && ids[..0] == [];
    if k == 0 {
      if l.lead.Some? {
        FieldIsBlank(l.lead.value, 0, |fields|);
        assert lead == 1 && Tokens(fields, 1) == Ok(ids[..0] + []);
        assert ids[..0] + [] == ids[..k];
      } else {
        assert lead == 0;
      }
    } else {
      TokensOfPrinted(ids, l, k - 1);
      FieldShapes(ids[k - 1], l.left[k - 1], l.right[k - 1], lead + k - 1, |fields|);
      assert ids[..k] == ids[..k - 1] + [ids[k - 1]];
    }
  }

  lemma FieldIsBlank(blank: string, index: nat, count: nat)
    requires Blank(blank) && (index == 0 || index + 1 == count)
    ensures NoComma(blank)
    ensures FieldTokens(blank, index, count) == Ok([])
  {
    FieldShapes(0, blank, "", index, count);
  }

  lemma PrintedHasNoComma(ids: seq<U32>, l: Layout, f: string)
    requires ValidLayout(ids, l) && f in PrintedFields(ids, l)
    ensures NoComma(f)
  {
    hide FieldTokens;
    if f in Numbers(ids, l) {
      var i :| 0 <= i < |ids| && Numbers(ids, l)[i] == f;
      FieldShapes(ids[i], l.left[i], l.right[i], 0, 1);
    } else if f != "" {
      FieldIsBlank(f, 0, 1);
    }
  }

  /** Every list of `u32` values, in any layout, parses back to itself. */
  lemma PrintedListParsesBack(ids: seq<U32>, l: Layout)
    requires ValidLayout(ids, l)
    ensures Parsed(Join(PrintedFields(ids, l))) == Ok(ids)
  {
    hide PrintedFields, FieldTokens, NoComma, Split, Join;
    var fields, done := PrintedFields(ids, l), |Ends(l.lead)| + |ids|;
    forall f | f in fields
      ensures NoComma(f)
    {
      PrintedHasNoComma(ids, l, f);
    }
    SplitJoin(fields);
    TokensOfPrinted(ids, l, |ids|);
    assert ids[..|ids|] == ids;
    PrintedShape(ids, l);
    if done < |fields| {
      FieldIsBlank(fields[done], done, |fields|);
      assert ids + [] == ids;
    }
  }

  /** Whatever was accepted, its plain printed form is accepted with the same meaning. */
  lemma ParsePrintParse(spec: string)
    requires Parsed(spec).Ok?
    ensures var ids := Parsed(spec).value;
            var plain := Layout(seq(|ids|, _ => ""), seq(|ids|, _ => ""), None, None);
            Parsed(Join(PrintedFields(ids, plain))) == Ok(ids)
  {
    var ids := Parsed(spec).value;
    PrintedListParsesBack(ids, Layout(seq(|ids|, _ => ""), seq(|ids|, _ => ""), None, None));
  }

  // ---------------------------------------------------------------- which field is blamed

  /** A field a list can hold at its place. */
  predicate GoodField(fields: seq<string>, i: nat)
    requires i < |fields|
  {
    if Trim(fields[i]) == "" then i == 0 || i + 1 == |fields| else ParseU32(Trim(fields[i])).Some?
  }

  /** A rejected list is rejected for its first bad field: a blank one inside, or one that is no
      `u32`. */
  lemma {:induction false} FirstBadFieldBlamed(fields: seq<string>, index: nat)
    requires index <= |fields| && Tokens(fields, index).Err?
    ensures var e := Tokens(fields, index).error;
            && e.index < index && !GoodField(fields, e.index)
            && (forall i :: 0 <= i < e.index ==> GoodField(fields, i))
            && (e.EmptyField? <==> Trim(fields[e.index]) == "")
  {
    hide Trim, ParseU32;
    AcceptedIff(fields, index - 1);
    if Tokens(fields, index - 1).Err? {
      FirstBadFieldBlamed(fields, index - 1);
    }
  }
}
