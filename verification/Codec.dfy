/** The generated struct codec over an abstract token stream: `sequence_id`, and the arguments of
    `async_response`. */
module Codec {
  import opened Wrappers

  datatype Kind = TBool | TByte | TI16 | TI32 | TI64 | TDouble | TString | TStruct | TMap | TSet | TList

  /** What the protocol calls put on, or take from, the wire. */
  datatype Token =
    | StructBegin
    | StructEnd
    | FieldBegin(kind: Kind, fid: int)
    | FieldEnd
    | Stop
    | Number(kind: Kind, value: int)
    | Text(text: string)
    | ItemsBegin(isSet: bool, item: Kind, size: nat)
    | ItemsEnd(isSet: bool)
    | PairsBegin(key: Kind, val: Kind, size: nat)
    | PairsEnd

  predicate IsNumber(k: Kind) {
    k.TBool? || k.TByte? || k.TI16? || k.TI32? || k.TI64? || k.TDouble?
  }

  // ------------------------------------------------------------------ values of any kind

  datatype Value =
    | Num(kind: Kind, n: int)
    | Str(s: string)
    | Rec(fields: seq<Field>)
    | Items(isSet: bool, item: Kind, values: seq<Value>)
    | Mapping(key: Kind, val: Kind, pairs: seq<Pair>)

  datatype Field = Field(fid: int, value: Value)

  datatype Pair = Pair(key: Value, val: Value)

  function KindOf(v: Value): Kind {
    match v
    case Num(kind, _) => kind
    case Str(_) => TString
    case Rec(_) => TStruct
    case Items(isSet, _, _) => ItemsKind(isSet)
    case Mapping(_, _, _) => TMap
  }

  /** Numbers have number kinds, and containers hold what they announce. */
  predicate Formed(v: Value) {
    match v
    case Num(kind, _) => IsNumber(kind)
    case Str(_) => true
    case Rec(fields) => forall i :: 0 <= i < |fields| ==> Formed(fields[i].value)
    case Items(_, item, values) => forall i :: 0 <= i < |values| ==> Formed(values[i]) && KindOf(values[i]) == item
    case Mapping(key, val, pairs) =>
      forall i :: 0 <= i < |pairs| ==>
        Formed(pairs[i].key) && KindOf(pairs[i].key) == key && Formed(pairs[i].val) && KindOf(pairs[i].val) == val
  }

  predicate AllFormed(fields: seq<Field>) {
    forall i :: 0 <= i < |fields| ==> Formed(fields[i].value)
  }

  /** The tokens of a value, followed by `rest`. */
  function Encode(v: Value, rest: seq<Token>): seq<Token>
    requires Formed(v)
    decreases v, 0
  {
    match v
    case Num(kind, n) => [Number(kind, n)] + rest
    case Str(s) => [Text(s)] + rest
    case Rec(fields) => [StructBegin] + PutFields(fields, [Stop, StructEnd] + rest)
    case Items(isSet, item, values) =>
      [ItemsBegin(isSet, item, |values|)] + PutItems(values, [ItemsEnd(isSet)] + rest)
    case Mapping(key, val, pairs) => [PairsBegin(key, val, |pairs|)] + PutPairs(pairs, [PairsEnd] + rest)
  }

  function PutFields(fields: seq<Field>, rest: seq<Token>): seq<Token>
    requires AllFormed(fields)
    decreases fields, |fields|
  {
    if fields == [] then rest else PutField(fields[0], PutFields(fields[1..], rest))
  }

  function PutField(f: Field, rest: seq<Token>): seq<Token>
    requires Formed(f.value)
    decreases f, 0
  {
    [FieldBegin(KindOf(f.value), f.fid)] + Encode(f.value, [FieldEnd] + rest)
  }

  function PutItems(values: seq<Value>, rest: seq<Token>): seq<Token>
    requires forall i :: 0 <= i < |values| ==> Formed(values[i])
    decreases values, |values|
  {
    if values == [] then rest else Encode(values[0], PutItems(values[1..], rest))
  }

  function PutPairs(pairs: seq<Pair>, rest: seq<Token>): seq<Token>
    requires forall i :: 0 <= i < |pairs| ==> Formed(pairs[i].key) && Formed(pairs[i].val)
    decreases pairs, |pairs|
  {
    if pairs == [] then rest else PutPair(pairs[0], PutPairs(pairs[1..], rest))
  }

  function PutPair(p: Pair, rest: seq<Token>): seq<Token>
    requires Formed(p.key) && Formed(p.val)
    decreases p, 0
  {
    Encode(p.key, Encode(p.val, rest))
  }

  // ------------------------------------------------------------------ skipping

  /** `skip`: takes one value of the announced kind off the stream. */
  function Skip(k: Kind, s: seq<Token>): (r: Result<seq<Token>>)
    ensures r.Ok? ==> |r.value| < |s|
    decreases |s|, 0
  {
    if s == [] then Err("end of stream")
    else if IsNumber(k) then (if s[0].Number? && s[0].kind == k then Ok(s[1..]) else Err("malformed"))
    else if k == TString then (if s[0].Text? then Ok(s[1..]) else Err("malformed"))
    else if k == TStruct then (if s[0].StructBegin? then Then(SkipFields(s[1..]), StructEnd) else Err("malformed"))
    else if s[0].PairsBegin? && k == TMap then Then(SkipPairs(s[0].key, s[0].val, s[0].size, s[1..]), PairsEnd)
    else if s[0].ItemsBegin? && k == ItemsKind(s[0].isSet) then
      Then(SkipItems(s[0].item, s[0].size, s[1..]), ItemsEnd(s[0].isSet))
    else Err("malformed")
  }

  function ItemsKind(isSet: bool): Kind {
    if isSet then TSet else TList
  }

  /** What is left must start with this token. */
  function Then(r: Result<seq<Token>>, t: Token): (r': Result<seq<Token>>)
    ensures r'.Ok? <==> r.Ok? && r.value != [] && r.value[0] == t
    ensures r'.Ok? ==> |r'.value| < |r.value| && r'.value == r.value[1..]
  {
    if r.Ok? && r.value != [] && r.value[0] == t then Ok(r.value[1..]) else Err("malformed")
  }

  function SkipFields(s: seq<Token>): (r: Result<seq<Token>>)
    ensures r.Ok? ==> |r.value| < |s|
    decreases |s|, 0
  {
    if s == [] then Err("end of stream")
    else if s[0].Stop? then Ok(s[1..])
    else if !s[0].FieldBegin? then Err("malformed")
    else
      var r := Then(Skip(s[0].kind, s[1..]), FieldEnd);
      if r.Ok? then SkipFields(r.value) else r
  }

  function SkipItems(item: Kind, n: nat, s: seq<Token>): (r: Result<seq<Token>>)
    ensures r.Ok? ==> |r.value| <= |s|
    decreases |s|, 1, n
  {
    if n == 0 then Ok(s)
    else
      var r := Skip(item, s);
      if r.Ok? then SkipItems(item, n - 1, r.value) else r
  }

  function SkipPairs(key: Kind, val: Kind, n: nat, s: seq<Token>): (r: Result<seq<Token>>)
    ensures r.Ok? ==> |r.value| <= |s|
    decreases |s|, 1, n
  {
    if n == 0 then Ok(s)
    else
      var r := Skip(key, s);
      if r.Err? then r
      else
        var r' := Skip(val, r.value);
        if r'.Ok? then SkipPairs(key, val, n - 1, r'.value) else r'
  }

  lemma After(t: Token, rest: seq<Token>)
    ensures ([t] + rest)[0] == t && ([t] + rest)[1..] == rest
  {
  }

  /** A value of any kind, however deeply nested, is skipped exactly. */
  lemma {:induction false} SkipsValue(v: Value, rest: seq<Token>)
    requires Formed(v)
    ensures Skip(KindOf(v), Encode(v, rest)) == Ok(rest)
    decreases v, 1
  {
    match v {
      case Num(kind, n) => After(Number(kind, n), rest);
      case Str(s) => After(Text(s), rest);
      case Rec(_) => SkipsRec(v, rest);
      case Items(_, _, _) => SkipsContainer(v, rest);
      case Mapping(_, _, _) => SkipsMap(v, rest);
    }
  }

  lemma {:induction false} SkipsRec(v: Value, rest: seq<Token>)
    requires Formed(v) && v.Rec?
    ensures Skip(TStruct, Encode(v, rest)) == Ok(rest)
    decreases v, 0
  {
    After(StructBegin, PutFields(v.fields, [Stop, StructEnd] + rest));
    assert [Stop, StructEnd] + rest == [Stop] + ([StructEnd] + rest);
    SkipsFields(v.fields, [StructEnd] + rest);
    After(StructEnd, rest);
  }

  lemma {:induction false} SkipsContainer(v: Value, rest: seq<Token>)
    requires Formed(v) && v.Items?
    ensures Skip(ItemsKind(v.isSet), Encode(v, rest)) == Ok(rest)
    decreases v, 0
  {
    hide PutItems;
    After(ItemsBegin(v.isSet, v.item, |v.values|), PutItems(v.values, [ItemsEnd(v.isSet)] + rest));
    SkipsItems(v.item, v.values, [ItemsEnd(v.isSet)] + rest);
    After(ItemsEnd(v.isSet), rest);
  }

  lemma {:induction false} SkipsMap(v: Value, rest: seq<Token>)
    requires Formed(v) && v.Mapping?
    ensures Skip(TMap, Encode(v, rest)) == Ok(rest)
    decreases v, 0
  {
    hide PutPairs, PutItems;
    After(PairsBegin(v.key, v.val, |v.pairs|), PutPairs(v.pairs, [PairsEnd] + rest));
    SkipsPairs(v.key, v.val, v.pairs, [PairsEnd] + rest);
    After(PairsEnd, rest);
  }

  lemma {:induction false} SkipsFields(fields: seq<Field>, rest: seq<Token>)
    requires AllFormed(fields)
    ensures SkipFields(PutFields(fields, [Stop] + rest)) == Ok(rest)
    decreases fields, |fields|
  {
    if fields == [] {
      After(Stop, rest);
    } else {
      var more := PutFields(fields[1..], [Stop] + rest);
      SkipsField(fields[0], more);
      SkipsFields(fields[1..], rest);
    }
  }

  lemma {:induction false} SkipsField(f: Field, rest: seq<Token>)
    requires Formed(f.value)
    ensures var s := PutField(f, rest);
            s != [] && s[0] == FieldBegin(KindOf(f.value), f.fid) && Then(Skip(s[0].kind, s[1..]), FieldEnd) == Ok(rest)
    decreases f, 0
  {
    After(FieldBegin(KindOf(f.value), f.fid), Encode(f.value, [FieldEnd] + rest));
    SkipsValue(f.value, [FieldEnd] + rest);
    After(FieldEnd, rest);
  }

  lemma {:induction false} SkipsItems(item: Kind, values: seq<Value>, rest: seq<Token>)
    requires forall i :: 0 <= i < |values| ==> Formed(values[i]) && KindOf(values[i]) == item
    ensures SkipItems(item, |values|, PutItems(values, rest)) == Ok(rest)
    decreases values, |values|
  {
    if values != [] {
      SkipsValue(values[0], PutItems(values[1..], rest));
      SkipsItems(item, values[1..], rest);
    }
  }

  lemma {:induction false} SkipsPairs(key: Kind, val: Kind, pairs: seq<Pair>, rest: seq<Token>)
    requires forall i :: 0 <= i < |pairs| ==>
               Formed(pairs[i].key) && KindOf(pairs[i].key) == key
               && Formed(pairs[i].val) && KindOf(pairs[i].val) == val
    ensures SkipPairs(key, val, |pairs|, PutPairs(pairs, rest)) == Ok(rest)
    decreases pairs, |pairs|
  {
    if pairs != [] {
      SkipsPair(pairs[0], PutPairs(pairs[1..], rest));
      SkipsPairs(key, val, pairs[1..], rest);
    }
  }

  lemma {:induction false} SkipsPair(p: Pair, rest: seq<Token>)
    requires Formed(p.key) && Formed(p.val)
    ensures Skip(KindOf(p.key), PutPair(p, rest)) == Ok(Encode(p.val, rest))
    ensures Skip(KindOf(p.val), Encode(p.val, rest)) == Ok(rest)
    decreases p, 0
  {
    SkipsValue(p.key, Encode(p.val, rest));
    SkipsValue(p.val, rest);
  }

  // ------------------------------------------------------------------ sequence_id

  datatype Ids = Ids(clientId: int, clientSeqNo: int, serverSeqNo: int)

  /** The `isset_` flags. */
  datatype Isset = Isset(clientId: bool, clientSeqNo: bool, serverSeqNo: bool)
  {
    predicate All() {
      clientId && clientSeqNo && serverSeqNo
    }
  }

  datatype IdsRead = IdsRead(ids: Ids, isset: Isset, rest: seq<Token>)

  function SetId(ids: Ids, fid: int, n: int): Ids {
    if fid == 1 then ids.(clientId := n)
    else if fid == 2 then ids.(clientSeqNo := n)
    else if fid == 3 then ids.(serverSeqNo := n)
    else ids
  }

  function MarkId(isset: Isset, fid: int): Isset {
    if fid == 1 then isset.(clientId := true)
    else if fid == 2 then isset.(clientSeqNo := true)
    else if fid == 3 then isset.(serverSeqNo := true)
    else isset
  }

  /** The loop of `sequence_id::read`, up to and including the stop token. */
  function ReadIdsFields(s: seq<Token>, ids: Ids, isset: Isset): (r: Result<IdsRead>)
    ensures r.Ok? ==> |r.value.rest| < |s|
    decreases |s|
  {
    if s == [] then Err("end of stream")
    else if s[0].Stop? then Ok(IdsRead(ids, isset, s[1..]))
    else if !s[0].FieldBegin? then Err("malformed")
    else if s[0].kind == TI64 && 1 <= s[0].fid <= 3 then
      if |s| >= 3 && s[1].Number? && s[1].kind == TI64 && s[2].FieldEnd? then
        ReadIdsFields(s[3..], SetId(ids, s[0].fid, s[1].value), MarkId(isset, s[0].fid))
      else Err("malformed")
    else
      var r := Then(Skip(s[0].kind, s[1..]), FieldEnd);
      if r.Ok? then ReadIdsFields(r.value, ids, isset) else Err(r.reason)
  }

  /** `sequence_id::read` into an object that holds `ids`. */
  function ReadIds(s: seq<Token>, ids: Ids): (r: Result<(Ids, seq<Token>)>)
    ensures r.Ok? ==> |r.value.1| < |s|
  {
    if s == [] || !s[0].StructBegin? then Err("malformed")
    else
      var r := ReadIdsFields(s[1..], ids, Isset(false, false, false));
      if r.Err? then Err(r.reason)
      else if r.value.rest == [] || !r.value.rest[0].StructEnd? then Err("malformed")
      else if !r.value.isset.All() then Err("invalid data")
      else Ok((r.value.ids, r.value.rest[1..]))
  }

  predicate IsI64(f: Field, fid: int) {
    f.fid == fid && f.value.Num? && f.value.kind == TI64
  }

  predicate HasId(fields: seq<Field>, fid: int) {
    exists i :: 0 <= i < |fields| && IsI64(fields[i], fid)
  }

  /** A struct value that `sequence_id::read` accepts. */
  predicate Complete(fields: seq<Field>) {
    HasId(fields, 1) && HasId(fields, 2) && HasId(fields, 3)
  }

  /** What the fields, in their order, do to the object and the flags. */
  function ApplyIds(fields: seq<Field>, ids: Ids): Ids {
    if fields == [] then ids
    else
      var f := fields[0];
      ApplyIds(fields[1..], if f.value.Num? && f.value.kind == TI64 then SetId(ids, f.fid, f.value.n) else ids)
  }

  function ApplyMarks(fields: seq<Field>, isset: Isset): Isset {
    if fields == [] then isset
    else
      var f := fields[0];
      ApplyMarks(fields[1..], if f.value.Num? && f.value.kind == TI64 then MarkId(isset, f.fid) else isset)
  }

  /** The loop consumes exactly the fields, whatever they are. */
  lemma {:induction false} IdsFieldsExact(fields: seq<Field>, rest: seq<Token>, ids: Ids, isset: Isset)
    requires AllFormed(fields)
    ensures ReadIdsFields(PutFields(fields, [Stop] + rest), ids, isset)
            == Ok(IdsRead(ApplyIds(fields, ids), ApplyMarks(fields, isset), rest))
  {
    if fields == [] {
      After(Stop, rest);
    } else {
      var f, more := fields[0], PutFields(fields[1..], [Stop] + rest);
      if IsI64(f, 1) || IsI64(f, 2) || IsI64(f, 3) {
        IdsFieldsExact(fields[1..], rest, SetId(ids, f.fid, f.value.n), MarkId(isset, f.fid));
        assert PutField(f, more) == [FieldBegin(TI64, f.fid), Number(TI64, f.value.n), FieldEnd] + more;
        assert PutField(f, more)[3..] == more;
      } else {
        SkipsField(f, more);
        IdsFieldsExact(fields[1..], rest, ids, isset);
      }
    }
  }

  lemma {:induction false} MarksAre(fields: seq<Field>, isset: Isset)
    ensures ApplyMarks(fields, isset)
            == Isset(isset.clientId || HasId(fields, 1), isset.clientSeqNo || HasId(fields, 2),
                     isset.serverSeqNo || HasId(fields, 3))
  {
    if fields != [] {
      var f := fields[0];
      MarksAre(fields[1..], if f.value.Num? && f.value.kind == TI64 then MarkId(isset, f.fid) else isset);
      HasFront(fields, 1);
      HasFront(fields, 2);
      HasFront(fields, 3);
    }
  }

  lemma HasFront(fields: seq<Field>, fid: int)
    requires fields != []
    ensures HasId(fields, fid) <==> IsI64(fields[0], fid) || HasId(fields[1..], fid)
  {
    if HasId(fields, fid) {
      var i :| 0 <= i < |fields| && IsI64(fields[i], fid);
      assert i == 0 || fields[1..][i - 1] == fields[i];
    }
    if HasId(fields[1..], fid) {
      var i :| 0 <= i < |fields| - 1 && IsI64(fields[1..][i], fid);
      assert fields[i + 1] == fields[1..][i];
    }
  }

  function IdAt(ids: Ids, fid: int): int {
    if fid == 1 then ids.clientId else if fid == 2 then ids.clientSeqNo else ids.serverSeqNo
  }

  /** Reading any struct value - fields in any order, repeated, of a wrong kind, or unknown and
      arbitrarily nested - accepts exactly those with an i64 field for each of the three ids, and
      leaves what follows untouched. */
  lemma IdsReadExactly(fields: seq<Field>, rest: seq<Token>, ids: Ids)
    requires AllFormed(fields)
    ensures ReadIds(Encode(Rec(fields), rest), ids).Ok? <==> Complete(fields)
    ensures Complete(fields) ==> ReadIds(Encode(Rec(fields), rest), ids) == Ok((ApplyIds(fields, ids), rest))
  {
    After(StructBegin, PutFields(fields, [Stop, StructEnd] + rest));
    assert [Stop, StructEnd] + rest == [Stop] + ([StructEnd] + rest);
    IdsFieldsExact(fields, [StructEnd] + rest, ids, Isset(false, false, false));
    MarksAre(fields, Isset(false, false, false));
    After(StructEnd, rest);
  }

  // ------------------------------------------------------------------ nothing else is accepted

  /** What is skipped without an error is a value of the announced kind. */
  lemma {:induction false} SkippedIsValue(k: Kind, s: seq<Token>) returns (v: Value)
    requires Skip(k, s).Ok?
    ensures Formed(v) && KindOf(v) == k && s == Encode(v, Skip(k, s).value)
    decreases |s|, 2
  {
    var rest := Skip(k, s).value;
    assert s == [s[0]] + s[1..];
    if IsNumber(k) {
      v := Num(k, s[0].value);
    } else if k == TString {
      v := Str(s[0].text);
    } else if k == TStruct {
      v := SkippedStruct(s, rest);
    } else if k == TMap {
      v := SkippedMapping(s, rest);
    } else {
      v := SkippedContainer(k, s, rest);
    }
  }

  lemma {:induction false} SkippedStruct(s: seq<Token>, rest: seq<Token>) returns (v: Value)
    requires s != [] && s[0].StructBegin? && Skip(TStruct, s) == Ok(rest)
    ensures Formed(v) && v.Rec? && s == Encode(v, rest)
    decreases |s|, 1
  {
    var fields := SkippedFields(s[1..]);
    var more := SkipFields(s[1..]).value;
    assert more == [StructEnd] + rest && [Stop] + ([StructEnd] + rest) == [Stop, StructEnd] + rest;
    v := Rec(fields);
  }

  lemma {:induction false} SkippedContainer(k: Kind, s: seq<Token>, rest: seq<Token>) returns (v: Value)
    requires s != [] && s[0].ItemsBegin? && k == ItemsKind(s[0].isSet) && Skip(k, s) == Ok(rest)
    ensures Formed(v) && v.Items? && KindOf(v) == k && s == Encode(v, rest)
    decreases |s|, 1
  {
    hide PutItems;
    var values := SkippedItems(s[0].item, s[0].size, s[1..]);
    var more := SkipItems(s[0].item, s[0].size, s[1..]).value;
    assert more == [ItemsEnd(s[0].isSet)] + rest;
    v := Items(s[0].isSet, s[0].item, values);
  }

  lemma {:induction false} SkippedMapping(s: seq<Token>, rest: seq<Token>) returns (v: Value)
    requires s != [] && s[0].PairsBegin? && Skip(TMap, s) == Ok(rest)
    ensures Formed(v) && v.Mapping? && s == Encode(v, rest)
    decreases |s|, 1
  {
    hide PutPairs, PutItems;
    var pairs := SkippedPairs(s[0].key, s[0].val, s[0].size, s[1..]);
    var more := SkipPairs(s[0].key, s[0].val, s[0].size, s[1..]).value;
    assert more == [PairsEnd] + rest;
    v := Mapping(s[0].key, s[0].val, pairs);
  }

  lemma {:induction false} SkippedFields(s: seq<Token>) returns (fields: seq<Field>)
    requires SkipFields(s).Ok?
    ensures AllFormed(fields) && s == PutFields(fields, [Stop] + SkipFields(s).value)
    decreases |s|, 1
  {
    if s[0].Stop? {
      fields := [];
    } else {
      var f, more := SkippedField(s);
      var others := SkippedFields(more);
      fields := [f] + others;
      assert fields[1..] == others;
    }
  }

  lemma {:induction false} SkippedField(s: seq<Token>) returns (f: Field, more: seq<Token>)
    requires s != [] && s[0].FieldBegin? && Then(Skip(s[0].kind, s[1..]), FieldEnd).Ok?
    ensures Formed(f.value) && f.fid == s[0].fid && KindOf(f.value) == s[0].kind
    ensures |more| < |s| && s == PutField(f, more) && Then(Skip(s[0].kind, s[1..]), FieldEnd) == Ok(more)
    decreases |s|, 0
  {
    var v := SkippedIsValue(s[0].kind, s[1..]);
    var tail := Skip(s[0].kind, s[1..]).value;
    more := tail[1..];
    assert tail == [FieldEnd] + more;
    f := Field(s[0].fid, v);
  }

  lemma {:induction false} SkippedItems(item: Kind, n: nat, s: seq<Token>) returns (values: seq<Value>)
    requires SkipItems(item, n, s).Ok?
    ensures |values| == n && (forall i :: 0 <= i < n ==> Formed(values[i]) && KindOf(values[i]) == item)
    ensures s == PutItems(values, SkipItems(item, n, s).value)
    decreases |s|, 3, n
  {
    if n == 0 {
      values := [];
    } else {
      var v := SkippedIsValue(item, s);
      var others := SkippedItems(item, n - 1, Skip(item, s).value);
      values := [v] + others;
      assert values[1..] == others;
    }
  }

  lemma {:induction false} SkippedPairs(key: Kind, val: Kind, n: nat, s: seq<Token>) returns (pairs: seq<Pair>)
    requires SkipPairs(key, val, n, s).Ok?
    ensures |pairs| == n
    ensures forall i :: 0 <= i < n ==>
              && Formed(pairs[i].key) && KindOf(pairs[i].key) == key
              && Formed(pairs[i].val) && KindOf(pairs[i].val) == val
    ensures s == PutPairs(pairs, SkipPairs(key, val, n, s).value)
    decreases |s|, 3, n
  {
    if n == 0 {
      pairs := [];
    } else {
      var k := SkippedIsValue(key, s);
      var v := SkippedIsValue(val, Skip(key, s).value);
      var others := SkippedPairs(key, val, n - 1, Skip(val, Skip(key, s).value).value);
      pairs := [Pair(k, v)] + others;
      assert pairs[1..] == others;
    }
  }

  /** So it is with the loop over the fields of a sequence id. */
  lemma {:induction false} ReadIsFields(s: seq<Token>, ids: Ids, isset: Isset) returns (fields: seq<Field>)
    requires ReadIdsFields(s, ids, isset).Ok?
    ensures AllFormed(fields) && s == PutFields(fields, [Stop] + ReadIdsFields(s, ids, isset).value.rest)
    decreases |s|
  {
    assert s == [s[0]] + s[1..];
    if s[0].Stop? {
      fields := [];
    } else if s[0].kind == TI64 && 1 <= s[0].fid <= 3 {
      var others := ReadIsFields(s[3..], SetId(ids, s[0].fid, s[1].value), MarkId(isset, s[0].fid));
      NumField(s);
      fields := [Field(s[0].fid, Num(TI64, s[1].value))] + others;
      assert fields[1..] == others;
    } else {
      var f, more := SkippedField(s);
      var others := ReadIsFields(more, ids, isset);
      fields := [f] + others;
      assert fields[1..] == others;
    }
  }

  lemma NumField(s: seq<Token>)
    requires |s| >= 3 && s[0].FieldBegin? && s[0].kind == TI64 && s[1].Number? && s[1].kind == TI64 && s[2].FieldEnd?
    ensures s == PutField(Field(s[0].fid, Num(TI64, s[1].value)), s[3..])
  {
    assert s == [s[0], s[1], s[2]] + s[3..];
    NumFieldTokens(TI64, s[0].fid, s[1].value, s[3..]);
  }

  ghost predicate StartsWithStruct(s: seq<Token>, fields: seq<Field>, rest: seq<Token>) {
    AllFormed(fields) && Complete(fields) && s == Encode(Rec(fields), rest)
  }

  /** Of all token streams, the reader accepts exactly those that start with a well-formed struct value which has
      an i64 field for each of the three ids. */
  lemma IdsAcceptExactly(s: seq<Token>, ids: Ids)
    ensures ReadIds(s, ids).Ok? <==> exists fields, rest :: StartsWithStruct(s, fields, rest)
  {
    if ReadIds(s, ids).Ok? {
      var r := ReadIdsFields(s[1..], ids, Isset(false, false, false)).value;
      var fields := ReadIsFields(s[1..], ids, Isset(false, false, false));
      var rest := r.rest[1..];
      assert r.rest == [StructEnd] + rest && s == [StructBegin] + s[1..];
      assert [Stop] + ([StructEnd] + rest) == [Stop, StructEnd] + rest;
      assert s == Encode(Rec(fields), rest);
      IdsReadExactly(fields, rest, ids);
      assert StartsWithStruct(s, fields, rest);
    }
    if fields, rest :| StartsWithStruct(s, fields, rest) {
      IdsReadExactly(fields, rest, ids);
    }
  }

  /** Of several fields for one id the last counts. */
  lemma {:induction false} LastFieldWins(fields: seq<Field>, ids: Ids, fid: int, p: nat)
    requires 1 <= fid <= 3 && p < |fields| && IsI64(fields[p], fid)
    requires forall q :: p < q < |fields| ==> !IsI64(fields[q], fid)
    ensures IdAt(ApplyIds(fields, ids), fid) == fields[p].value.n
  {
    var f := fields[0];
    var ids' := if f.value.Num? && f.value.kind == TI64 then SetId(ids, f.fid, f.value.n) else ids;
    if p > 0 {
      LastFieldWins(fields[1..], ids', fid, p - 1);
    } else {
      OthersLeaveId(fields[1..], ids', fid);
    }
  }

  lemma {:induction false} OthersLeaveId(fields: seq<Field>, ids: Ids, fid: int)
    requires 1 <= fid <= 3 && forall q :: 0 <= q < |fields| ==> !IsI64(fields[q], fid)
    ensures IdAt(ApplyIds(fields, ids), fid) == IdAt(ids, fid)
  {
    if fields != [] {
      var f := fields[0];
      OthersLeaveId(fields[1..], if f.value.Num? && f.value.kind == TI64 then SetId(ids, f.fid, f.value.n) else ids,
                    fid);
    }
  }

  /** The fields that `sequence_id::write` writes. */
  function IdsFields(ids: Ids): (fields: seq<Field>)
    ensures AllFormed(fields)
  {
    [Field(1, Num(TI64, ids.clientId)), Field(2, Num(TI64, ids.clientSeqNo)), Field(3, Num(TI64, ids.serverSeqNo))]
  }

  lemma IdsFieldsApplied(ids: Ids, was: Ids)
    ensures Complete(IdsFields(ids)) && ApplyIds(IdsFields(ids), was) == ids
  {
    var fields := IdsFields(ids);
    assert IsI64(fields[0], 1) && IsI64(fields[1], 2) && IsI64(fields[2], 3);
    LastFieldWins(fields, was, 1, 0);
    LastFieldWins(fields, was, 2, 1);
    LastFieldWins(fields, was, 3, 2);
  }

  /** The round trip; it leaves what follows untouched. */
  lemma IdsRoundTrip(ids: Ids, was: Ids, rest: seq<Token>)
    ensures ReadIds(Encode(Rec(IdsFields(ids)), rest), was) == Ok((ids, rest))
  {
    IdsReadExactly(IdsFields(ids), rest, was);
    IdsFieldsApplied(ids, was);
  }

  /** Any order, any repetition and any other fields in between: if the i64 fields of the three ids
      agree with `ids`, that is what is read. */
  lemma IdsReadInAnyOrder(fields: seq<Field>, ids: Ids, was: Ids, rest: seq<Token>)
    requires AllFormed(fields) && Complete(fields)
    requires forall i, fid :: 0 <= i < |fields| && 1 <= fid <= 3 && IsI64(fields[i], fid)
               ==> fields[i].value.n == IdAt(ids, fid)
    ensures ReadIds(Encode(Rec(fields), rest), was) == Ok((ids, rest))
  {
    IdsReadExactly(fields, rest, was);
    AgreeingIds(fields, ids, was, 1);
    AgreeingIds(fields, ids, was, 2);
    AgreeingIds(fields, ids, was, 3);
  }

  lemma {:induction false} AgreeingIds(fields: seq<Field>, ids: Ids, was: Ids, fid: int)
    requires 1 <= fid <= 3 && (HasId(fields, fid) || IdAt(was, fid) == IdAt(ids, fid))
    requires forall i :: 0 <= i < |fields| && IsI64(fields[i], fid) ==> fields[i].value.n == IdAt(ids, fid)
    ensures IdAt(ApplyIds(fields, was), fid) == IdAt(ids, fid)
  {
    if fields != [] {
      var f := fields[0];
      HasFront(fields, fid);
      AgreeingIds(fields[1..], ids, if f.value.Num? && f.value.kind == TI64 then SetId(was, f.fid, f.value.n) else was,
                  fid);
    }
  }

  // ------------------------------------------------------------------ async_response_args

  datatype Args = Args(seqId: Ids, opCode: int, result: seq<string>)

  /** `readString` for each announced element, whatever its announced kind. */
  function ReadStrings(n: nat, s: seq<Token>): (r: Result<(seq<string>, seq<Token>)>)
    ensures r.Ok? ==> |r.value.1| <= |s|
  {
    if n == 0 then Ok(([], s))
    else if s == [] || !s[0].Text? then Err("malformed")
    else
      var r := ReadStrings(n - 1, s[1..]);
      if r.Ok? then Ok(([s[0].text] + r.value.0, r.value.1)) else r
  }

  /** One list field after its `readFieldBegin`. */
  function ReadList(s: seq<Token>): (r: Result<(seq<string>, seq<Token>)>)
    ensures r.Ok? ==> |r.value.1| < |s|
  {
    if s == [] || !s[0].ItemsBegin? || s[0].isSet then Err("malformed")
    else
      var r := ReadStrings(s[0].size, s[1..]);
      if r.Err? then r
      else if r.value.1 == [] || r.value.1[0] != ItemsEnd(false) then Err("malformed")
      else Ok((r.value.0, r.value.1[1..]))
  }

  /** One field after its `readFieldBegin`, without its `readFieldEnd`. */
  function ReadArg(kind: Kind, fid: int, s: seq<Token>, args: Args): (r: Result<(Args, seq<Token>)>)
    ensures r.Ok? ==> |r.value.1| < |s|
  {
    if fid == 1 && kind == TStruct then
      var r := ReadIds(s, args.seqId);
      if r.Ok? then Ok((args.(seqId := r.value.0), r.value.1)) else Err(r.reason)
    else if fid == 2 && kind == TI32 then
      if s != [] && s[0].Number? && s[0].kind == TI32
      then Ok((args.(opCode := s[0].value), s[1..]))
      else Err("malformed")
    else if fid == 3 && kind == TList then
      var r := ReadList(s);
      if r.Ok? then Ok((args.(result := r.value.0), r.value.1)) else Err(r.reason)
    else
      var r := Skip(kind, s);
      if r.Ok? then Ok((args, r.value)) else Err(r.reason)
  }

  function ReadArgsFields(s: seq<Token>, args: Args): (r: Result<(Args, seq<Token>)>)
    ensures r.Ok? ==> |r.value.1| < |s|
    decreases |s|
  {
    if s == [] then Err("end of stream")
    else if s[0].Stop? then Ok((args, s[1..]))
    else if !s[0].FieldBegin? then Err("malformed")
    else
      var r := ReadArg(s[0].kind, s[0].fid, s[1..], args);
      if r.Err? then r
      else if r.value.1 == [] || !r.value.1[0].FieldEnd? then Err("malformed")
      else ReadArgsFields(r.value.1[1..], r.value.0)
  }

  /** `pancake_thrift_response_async_response_args::read` into an object that holds `args`. */
  function ReadArgs(s: seq<Token>, args: Args): Result<(Args, seq<Token>)> {
    if s == [] || !s[0].StructBegin? then Err("malformed")
    else
      var r := ReadArgsFields(s[1..], args);
      if r.Err? then r
      else if r.value.1 == [] || !r.value.1[0].StructEnd? then Err("malformed")
      else Ok((r.value.0, r.value.1[1..]))
  }

  predicate AllStrings(values: seq<Value>) {
    forall i :: 0 <= i < |values| ==> values[i].Str?
  }

  function TextsOf(values: seq<Value>): seq<string>
    requires AllStrings(values)
  {
    seq(|values|, i requires 0 <= i < |values| => values[i].s)
  }

  /** A field that the reader takes or skips: a nested struct must be complete, and a list must be a
      list of strings. */
  predicate Acceptable(f: Field) {
    && (f.fid == 1 && f.value.Rec? ==> Complete(f.value.fields))
    && (f.fid == 3 && f.value.Items? && !f.value.isSet ==> AllStrings(f.value.values))
  }

  function ApplyArg(f: Field, args: Args): Args
    requires Acceptable(f)
  {
    if f.fid == 1 && f.value.Rec? then args.(seqId := ApplyIds(f.value.fields, args.seqId))
    else if f.fid == 2 && f.value.Num? && f.value.kind == TI32 then args.(opCode := f.value.n)
    else if f.fid == 3 && f.value.Items? && !f.value.isSet then args.(result := TextsOf(f.value.values))
    else args
  }

  function ApplyArgs(fields: seq<Field>, args: Args): Args
    requires forall i :: 0 <= i < |fields| ==> Acceptable(fields[i])
  {
    if fields == [] then args else ApplyArgs(fields[1..], ApplyArg(fields[0], args))
  }

  lemma {:induction false} StringsExact(values: seq<Value>, rest: seq<Token>)
    requires forall i :: 0 <= i < |values| ==> Formed(values[i])
    ensures var r := ReadStrings(|values|, PutItems(values, rest));
            if AllStrings(values) then r == Ok((TextsOf(values), rest)) else r.Err?
  {
    if values != [] {
      var more := PutItems(values[1..], rest);
      if values[0].Str? {
        After(Text(values[0].s), more);
        StringsExact(values[1..], rest);
        assert AllStrings(values) <==> AllStrings(values[1..]);
        if AllStrings(values) {
          assert TextsOf(values) == [values[0].s] + TextsOf(values[1..]);
        }
      } else {
        FirstToken(values[0], more);
      }
    }
  }

  lemma FirstToken(v: Value, rest: seq<Token>)
    requires Formed(v)
    ensures Encode(v, rest) != [] && (Encode(v, rest)[0].Text? <==> v.Str?)
  {
  }

  lemma ListExact(v: Value, rest: seq<Token>)
    requires Formed(v) && v.Items? && !v.isSet
    ensures var r := ReadList(Encode(v, rest));
            if AllStrings(v.values) then r == Ok((TextsOf(v.values), rest)) else r.Err?
  {
    After(ItemsBegin(false, v.item, |v.values|), PutItems(v.values, [ItemsEnd(false)] + rest));
    StringsExact(v.values, [ItemsEnd(false)] + rest);
    After(ItemsEnd(false), rest);
  }

  lemma ArgExact(f: Field, rest: seq<Token>, args: Args)
    requires Formed(f.value)
    ensures var r := ReadArg(KindOf(f.value), f.fid, Encode(f.value, rest), args);
            if Acceptable(f) then r == Ok((ApplyArg(f, args), rest)) else r.Err?
  {
    if f.fid == 1 && f.value.Rec? {
      IdsReadExactly(f.value.fields, rest, args.seqId);
    } else if f.fid == 2 && f.value.Num? && f.value.kind == TI32 {
      After(Number(TI32, f.value.n), rest);
    } else if f.fid == 3 && f.value.Items? && !f.value.isSet {
      ListExact(f.value, rest);
    } else {
      SkipsValue(f.value, rest);
    }
  }

  lemma {:induction false} ArgsFieldsExact(fields: seq<Field>, rest: seq<Token>, args: Args)
    requires AllFormed(fields)
    ensures var r := ReadArgsFields(PutFields(fields, [Stop] + rest), args);
            if forall i :: 0 <= i < |fields| ==> Acceptable(fields[i]) then r == Ok((ApplyArgs(fields, args), rest))
            else r.Err?
  {
    if fields == [] {
      After(Stop, rest);
    } else {
      var f, more := fields[0], PutFields(fields[1..], [Stop] + rest);
      After(FieldBegin(KindOf(f.value), f.fid), Encode(f.value, [FieldEnd] + more));
      ArgExact(f, [FieldEnd] + more, args);
      After(FieldEnd, more);
      if Acceptable(f) {
        ArgsFieldsExact(fields[1..], rest, ApplyArg(f, args));
        assert (forall i :: 0 <= i < |fields| ==> Acceptable(fields[i]))
               <==> forall i :: 0 <= i < |fields[1..]| ==> Acceptable(fields[1..][i]);
      }
    }
  }

  /** Reading any struct value accepts it exactly if every nested sequence id is complete and every
      result list holds strings; the object then holds what the fields, in order, say. */
  lemma ArgsReadExactly(fields: seq<Field>, rest: seq<Token>, args: Args)
    requires AllFormed(fields)
    ensures var r := ReadArgs(Encode(Rec(fields), rest), args);
            if forall i :: 0 <= i < |fields| ==> Acceptable(fields[i]) then r == Ok((ApplyArgs(fields, args), rest))
            else r.Err?
  {
    After(StructBegin, PutFields(fields, [Stop, StructEnd] + rest));
    assert [Stop, StructEnd] + rest == [Stop] + ([StructEnd] + rest);
    ArgsFieldsExact(fields, [StructEnd] + rest, args);
    After(StructEnd, rest);
  }

  function StrValues(texts: seq<string>): (values: seq<Value>)
    ensures |values| == |texts| && AllStrings(values) && TextsOf(values) == texts
  {
    seq(|texts|, i requires 0 <= i < |texts| => Str(texts[i]))
  }

  function ArgsFields(args: Args): (fields: seq<Field>)
    ensures AllFormed(fields)
  {
    [Field(1, Rec(IdsFields(args.seqId))), Field(2, Num(TI32, args.opCode)),
     Field(3, Items(false, TString, StrValues(args.result)))]
  }

  lemma ArgsRoundTrip(args: Args, was: Args, rest: seq<Token>)
    ensures ReadArgs(Encode(Rec(ArgsFields(args)), rest), was) == Ok((args, rest))
  {
    var fields := ArgsFields(args);
    IdsFieldsApplied(args.seqId, was.seqId);
    ArgsReadExactly(fields, rest, was);
    var one := was.(seqId := args.seqId);
    var two := one.(opCode := args.opCode);
    assert ApplyArgs(fields[1..][1..], two) == ApplyArgs([], args) by {
      assert fields[1..][1..][1..] == [];
    }
    assert ApplyArgs(fields[1..], one) == args;
  }

  // ------------------------------------------------------------------ the generated classes

  /** The input protocol. */
  class Reader {
    var tokens: seq<Token>

    constructor (tokens: seq<Token>)
      ensures this.tokens == tokens
    {
      this.tokens := tokens;
    }

    /** Takes one token if it is the expected one. */
    method Expect(t: Token) returns (ok: bool)
      modifies this
      ensures ok <==> old(tokens) != [] && old(tokens)[0] == t
      ensures tokens == if ok then old(tokens)[1..] else old(tokens)
    {
      ok := tokens != [] && tokens[0] == t;
      if ok {
        tokens := tokens[1..];
      }
    }

    /** Takes a number of the expected kind. */
    method TakeNumber(k: Kind) returns (ok: bool, n: int)
      modifies this
      ensures ok <==> old(tokens) != [] && old(tokens)[0].Number? && old(tokens)[0].kind == k
      ensures ok ==> n == old(tokens)[0].value && tokens == old(tokens)[1..]
    {
      ok, n := tokens != [] && tokens[0].Number? && tokens[0].kind == k, 0;
      if ok {
        n := tokens[0].value;
        tokens := tokens[1..];
      }
    }

    method SkipValue(k: Kind) returns (ok: bool)
      modifies this
      ensures ok <==> Skip(k, old(tokens)).Ok?
      ensures ok ==> tokens == Skip(k, old(tokens)).value
    {
      var r := Skip(k, tokens);
      ok := r.Ok?;
      if ok {
        tokens := r.value;
      }
    }
  }

  /** The output protocol. */
  class Writer {
    var tokens: seq<Token>

    constructor ()
      ensures tokens == []
    {
      tokens := [];
    }

    method Emit(t: Token)
      modifies this
      ensures tokens == old(tokens) + [t]
    {
      tokens := tokens + [t];
    }
  }

  class SequenceId {
    var clientId: int
    var clientSeqNo: int
    var serverSeqNo: int

    constructor (ids: Ids)
      ensures Value() == ids
    {
      clientId, clientSeqNo, serverSeqNo := ids.clientId, ids.clientSeqNo, ids.serverSeqNo;
    }

    function Value(): Ids
      reads this
    {
      Ids(clientId, clientSeqNo, serverSeqNo)
    }

    /** `sequence_id::read`; a false result stands for the exception. */
    method Read(input: Reader) returns (ok: bool)
      modifies this, input
      ensures ok <==> ReadIds(old(input.tokens), old(Value())).Ok?
      ensures ok ==> (Value(), input.tokens) == ReadIds(old(input.tokens), old(Value())).value
    {
      hide Skip;
      ok := input.Expect(StructBegin);
      if !ok {
        return;
      }
      ghost var start, was := input.tokens, Value();
      var issetClientId, issetClientSeqNo, issetServerSeqNo := false, false, false;
      while true
        invariant ReadIdsFields(input.tokens, Value(), Isset(issetClientId, issetClientSeqNo, issetServerSeqNo))
                  == ReadIdsFields(start, was, Isset(false, false, false))
        decreases |input.tokens|
      {
        if input.tokens == [] || !(input.tokens[0].Stop? || input.tokens[0].FieldBegin?) {
          return false;
        }
        var t := input.tokens[0];
        ghost var before := input.tokens;
        input.tokens := input.tokens[1..];
        if t.Stop? {
          break;
        }
        if t.kind == TI64 && 1 <= t.fid <= 3 {
          var taken, n := input.TakeNumber(TI64);
          if !taken {
            return false;
          }
          if t.fid == 1 {
            clientId, issetClientId := n, true;
          } else if t.fid == 2 {
            clientSeqNo, issetClientSeqNo := n, true;
          } else {
            serverSeqNo, issetServerSeqNo := n, true;
          }
        } else {
          var skipped := input.SkipValue(t.kind);
          if !skipped {
            return false;
          }
        }
        var ended := input.Expect(FieldEnd);
        if !ended {
          return false;
        }
        assert t.kind == TI64 && 1 <= t.fid <= 3 ==> input.tokens == before[3..];
      }
      ok := input.Expect(StructEnd);
      ok := ok && issetClientId && issetClientSeqNo && issetServerSeqNo;
    }

    /** `sequence_id::write` */
    method Write(output: Writer)
      modifies output
      ensures output.tokens == old(output.tokens) + IdsWritten(Value())
      ensures output.tokens[|old(output.tokens)|..]
              == [StructBegin, FieldBegin(TI64, 1), Number(TI64, clientId), FieldEnd,
                  FieldBegin(TI64, 2), Number(TI64, clientSeqNo), FieldEnd,
                  FieldBegin(TI64, 3), Number(TI64, serverSeqNo), FieldEnd, Stop, StructEnd]
    {
      output.Emit(StructBegin);
      WriteNumber(output, 1, clientId);
      WriteNumber(output, 2, clientSeqNo);
      WriteNumber(output, 3, serverSeqNo);
      output.Emit(Stop);
      output.Emit(StructEnd);
    }

    static method WriteNumber(output: Writer, fid: int, n: int)
      modifies output
      ensures output.tokens == old(output.tokens) + [FieldBegin(TI64, fid), Number(TI64, n), FieldEnd]
    {
      output.Emit(FieldBegin(TI64, fid));
      output.Emit(Number(TI64, n));
      output.Emit(FieldEnd);
    }
  }

  /** `pancake_thrift_response_async_response_args` */
  class AsyncResponseArgs {
    const seqId: SequenceId
    var opCode: int
    var result: seq<string>

    constructor (args: Args)
      ensures Value() == args && fresh(seqId)
    {
      seqId := new SequenceId(args.seqId);
      opCode, result := args.opCode, args.result;
    }

    function Value(): Args
      reads this, seqId
    {
      Args(seqId.Value(), opCode, result)
    }

    /** The list field: `readString` once per announced element. */
    method ReadResult(input: Reader) returns (ok: bool)
      modifies this`result, input
      ensures ok <==> ReadList(old(input.tokens)).Ok?
      ensures ok ==> (result, input.tokens) == ReadList(old(input.tokens)).value
    {
      if input.tokens == [] || !input.tokens[0].ItemsBegin? || input.tokens[0].isSet {
        return false;
      }
      var size := input.tokens[0].size;
      input.tokens := input.tokens[1..];
      ghost var start := input.tokens;
      result := [];
      var i := 0;
      NoStringsYet(size, start);
      while i < size
        invariant i <= size && |result| == i
        invariant StringsSoFar(size, start, i, result, input.tokens)
      {
        if input.tokens == [] || !input.tokens[0].Text? {
          return false;
        }
        StringsNext(size, start, i, result, input.tokens);
        result := result + [input.tokens[0].text];
        input.tokens := input.tokens[1..];
        i := i + 1;
      }
      AllStringsRead(size, start, result, input.tokens);
      ok := input.Expect(ItemsEnd(false));
    }

    /** One field after its `readFieldBegin`. */
    method ReadField(kind: Kind, fid: int, input: Reader) returns (ok: bool)
      modifies this, seqId, input
      ensures ok <==> ReadArg(kind, fid, old(input.tokens), old(Value())).Ok?
      ensures ok ==> (Value(), input.tokens) == ReadArg(kind, fid, old(input.tokens), old(Value())).value
    {
      if fid == 1 && kind == TStruct {
        ok := seqId.Read(input);
      } else if fid == 2 && kind == TI32 {
        ok := input.tokens != [] && input.tokens[0].Number? && input.tokens[0].kind == TI32;
        if ok {
          opCode := input.tokens[0].value;
          input.tokens := input.tokens[1..];
        }
      } else if fid == 3 && kind == TList {
        ok := ReadResult(input);
      } else {
        ok := input.SkipValue(kind);
      }
    }

    /** `read`; a false result stands for the exception. */
    method Read(input: Reader) returns (ok: bool)
      modifies this, seqId, input
      ensures ok <==> ReadArgs(old(input.tokens), old(Value())).Ok?
      ensures ok ==> (Value(), input.tokens) == ReadArgs(old(input.tokens), old(Value())).value
    {
      ok := input.Expect(StructBegin);
      if !ok {
        return;
      }
      ghost var start, was := input.tokens, Value();
      while true
        invariant ReadArgsFields(input.tokens, Value()) == ReadArgsFields(start, was)
        decreases |input.tokens|
      {
        if input.tokens == [] || !(input.tokens[0].Stop? || input.tokens[0].FieldBegin?) {
          return false;
        }
        var t := input.tokens[0];
        input.tokens := input.tokens[1..];
        if t.Stop? {
          break;
        }
        var read := ReadField(t.kind, t.fid, input);
        if !read {
          return false;
        }
        var ended := input.Expect(FieldEnd);
        if !ended {
          return false;
        }
      }
      ok := input.Expect(StructEnd);
    }

    /** `write` */
    method Write(output: Writer)
      modifies output
      ensures output.tokens == old(output.tokens) + ArgsWritten(Value())
    {
      hide IdsWritten, ListWritten;
      output.Emit(StructBegin);
      WriteSeqId(output);
      WriteOpCode(output);
      WriteResult(output);
      output.Emit(Stop);
      output.Emit(StructEnd);
    }

    method WriteSeqId(output: Writer)
      modifies output
      ensures output.tokens == old(output.tokens) + ([FieldBegin(TStruct, 1)] + IdsWritten(seqId.Value()) + [FieldEnd])
    {
      hide IdsWritten;
      output.Emit(FieldBegin(TStruct, 1));
      seqId.Write(output);
      output.Emit(FieldEnd);
    }

    method WriteOpCode(output: Writer)
      modifies output
      ensures output.tokens == old(output.tokens) + [FieldBegin(TI32, 2), Number(TI32, opCode), FieldEnd]
    {
      output.Emit(FieldBegin(TI32, 2));
      output.Emit(Number(TI32, opCode));
      output.Emit(FieldEnd);
    }

    /** The list field. */
    method WriteResult(output: Writer)
      modifies output
      ensures output.tokens == old(output.tokens) + ListWritten(result)
    {
      output.Emit(FieldBegin(TList, 3));
      output.Emit(ItemsBegin(false, TString, |result|));
      ghost var before := output.tokens;
      for i := 0 to |result|
        invariant output.tokens == before + TextTokens(result[..i])
      {
        output.Emit(Text(result[i]));
        assert TextTokens(result[..i + 1]) == TextTokens(result[..i]) + [Text(result[i])];
      }
      assert result[..|result|] == result;
      output.Emit(ItemsEnd(false));
      output.Emit(FieldEnd);
    }
  }

  /** After i strings the rest of the list is still to be read as before. */
  ghost predicate StringsSoFar(size: nat, start: seq<Token>, i: nat, texts: seq<string>, tokens: seq<Token>)
    requires i <= size
  {
    var all, more := ReadStrings(size, start), ReadStrings(size - i, tokens);
    (all.Ok? <==> more.Ok?) && (all.Ok? ==> all.value == (texts + more.value.0, more.value.1))
  }

  lemma NoStringsYet(size: nat, start: seq<Token>)
    ensures StringsSoFar(size, start, 0, [], start)
  {
    var all := ReadStrings(size, start);
    assert all.Ok? ==> [] + all.value.0 == all.value.0;
  }

  lemma StringsNext(size: nat, start: seq<Token>, i: nat, texts: seq<string>, tokens: seq<Token>)
    requires i < size && StringsSoFar(size, start, i, texts, tokens) && tokens != [] && tokens[0].Text?
    ensures StringsSoFar(size, start, i + 1, texts + [tokens[0].text], tokens[1..])
  {
    var more := ReadStrings(size - i - 1, tokens[1..]);
    if more.Ok? {
      assert texts + [tokens[0].text] + more.value.0 == texts + ([tokens[0].text] + more.value.0);
    }
  }

  lemma AllStringsRead(size: nat, start: seq<Token>, texts: seq<string>, tokens: seq<Token>)
    requires StringsSoFar(size, start, size, texts, tokens)
    ensures ReadStrings(size, start) == Ok((texts, tokens))
  {
    assert texts + [] == texts;
  }

  /** The tokens of `sequence_id::write`, in order. */
  function IdsWritten(ids: Ids): seq<Token> {
    [StructBegin,
     FieldBegin(TI64, 1), Number(TI64, ids.clientId), FieldEnd,
     FieldBegin(TI64, 2), Number(TI64, ids.clientSeqNo), FieldEnd,
     FieldBegin(TI64, 3), Number(TI64, ids.serverSeqNo), FieldEnd,
     Stop, StructEnd]
  }

  function TextTokens(texts: seq<string>): seq<Token> {
    seq(|texts|, i requires 0 <= i < |texts| => Text(texts[i]))
  }

  /** The tokens of `async_response_args::write`, in order. */
  function ArgsWritten(args: Args): seq<Token> {
    [StructBegin, FieldBegin(TStruct, 1)] + IdsWritten(args.seqId)
    + [FieldEnd, FieldBegin(TI32, 2), Number(TI32, args.opCode), FieldEnd]
    + ListWritten(args.result) + [Stop, StructEnd]
  }

  /** Those of its list field. */
  function ListWritten(texts: seq<string>): seq<Token> {
    [FieldBegin(TList, 3), ItemsBegin(false, TString, |texts|)] + TextTokens(texts) + [ItemsEnd(false), FieldEnd]
  }

  /** The tokens of the arguments, spelled out. */
  lemma ArgsAre(args: Args)
    ensures ArgsWritten(args)
            == [StructBegin, FieldBegin(TStruct, 1),
                StructBegin, FieldBegin(TI64, 1), Number(TI64, args.seqId.clientId), FieldEnd,
                FieldBegin(TI64, 2), Number(TI64, args.seqId.clientSeqNo), FieldEnd,
                FieldBegin(TI64, 3), Number(TI64, args.seqId.serverSeqNo), FieldEnd, Stop, StructEnd,
                FieldEnd, FieldBegin(TI32, 2), Number(TI32, args.opCode), FieldEnd,
                FieldBegin(TList, 3), ItemsBegin(false, TString, |args.result|)]
               + seq(|args.result|, i requires 0 <= i < |args.result| => Text(args.result[i]))
               + [ItemsEnd(false), FieldEnd, Stop, StructEnd]
  {
    Joined4([StructBegin, FieldBegin(TStruct, 1)], IdsWritten(args.seqId),
            [FieldEnd, FieldBegin(TI32, 2), Number(TI32, args.opCode), FieldEnd],
            [FieldBegin(TList, 3), ItemsBegin(false, TString, |args.result|)], TextTokens(args.result));
  }

  lemma Joined4<T>(a: seq<T>, b: seq<T>, c: seq<T>, d: seq<T>, e: seq<T>)
    ensures a + b + c + (d + e) == (a + b + c + d) + e
  {
  }

  lemma NumFieldTokens(kind: Kind, fid: int, n: int, rest: seq<Token>)
    requires IsNumber(kind)
    ensures PutField(Field(fid, Num(kind, n)), rest) == [FieldBegin(kind, fid), Number(kind, n), FieldEnd] + rest
  {
  }

  /** Both writers write the struct value of their fields. */
  lemma IdsTokens(ids: Ids, rest: seq<Token>)
    ensures Encode(Rec(IdsFields(ids)), rest) == IdsWritten(ids) + rest
  {
    var fields, tail := IdsFields(ids), [Stop, StructEnd] + rest;
    assert fields[1..][1..][1..] == [];
    NumFieldTokens(TI64, 3, ids.serverSeqNo, tail);
    var third := [FieldBegin(TI64, 3), Number(TI64, ids.serverSeqNo), FieldEnd] + tail;
    assert PutFields(fields[1..][1..], tail) == third;
    NumFieldTokens(TI64, 2, ids.clientSeqNo, third);
    var second := [FieldBegin(TI64, 2), Number(TI64, ids.clientSeqNo), FieldEnd] + third;
    assert PutFields(fields[1..], tail) == second;
    NumFieldTokens(TI64, 1, ids.clientId, second);
    assert PutFields(fields, tail) == [FieldBegin(TI64, 1), Number(TI64, ids.clientId), FieldEnd] + second;
  }

  lemma {:induction false} TextsTokens(texts: seq<string>, rest: seq<Token>)
    ensures PutItems(StrValues(texts), rest) == TextTokens(texts) + rest
  {
    if texts == [] {
    } else {
      assert StrValues(texts)[1..] == StrValues(texts[1..]);
      TextsTokens(texts[1..], rest);
      assert TextTokens(texts) == [Text(texts[0])] + TextTokens(texts[1..]);
    }
  }

  lemma ArgsTokens(args: Args, rest: seq<Token>)
    ensures Encode(Rec(ArgsFields(args)), rest) == ArgsWritten(args) + rest
  {
    hide IdsWritten, ListWritten, PutItems, PutPairs, PutField;
    var fields, tail := ArgsFields(args), [Stop, StructEnd] + rest;
    var f1, f2, f3 := fields[0], fields[1], fields[2];
    assert fields == [f1, f2, f3];
    ThreeFields(f1, f2, f3, tail);
    ListFieldTokens(args.result, tail);
    var third := ListWritten(args.result) + tail;
    NumFieldTokens(TI32, 2, args.opCode, third);
    var second := [FieldBegin(TI32, 2), Number(TI32, args.opCode), FieldEnd] + third;
    IdsFieldTokens(args.seqId, second);
    assert PutFields(fields, tail) == [FieldBegin(TStruct, 1)] + IdsWritten(args.seqId) + [FieldEnd] + second;
  }

  lemma ThreeFields(a: Field, b: Field, c: Field, rest: seq<Token>)
    requires Formed(a.value) && Formed(b.value) && Formed(c.value)
    ensures AllFormed([a, b, c])
    ensures PutFields([a, b, c], rest) == PutField(a, PutField(b, PutField(c, rest)))
  {
    hide PutField;
    assert [a, b, c][1..] == [b, c] && [b, c][1..] == [c] && [c][1..] == [];
    assert PutFields([c], rest) == PutField(c, rest);
    assert PutFields([b, c], rest) == PutField(b, PutField(c, rest));
  }

  lemma IdsFieldTokens(ids: Ids, rest: seq<Token>)
    ensures PutField(Field(1, Rec(IdsFields(ids))), rest)
            == [FieldBegin(TStruct, 1)] + IdsWritten(ids) + [FieldEnd] + rest
  {
    hide IdsWritten, Encode, IdsFields;
    var v := Rec(IdsFields(ids));
    IdsTokens(ids, [FieldEnd] + rest);
    assert PutField(Field(1, v), rest) == [FieldBegin(TStruct, 1)] + (IdsWritten(ids) + ([FieldEnd] + rest));
  }

  lemma ListFieldTokens(texts: seq<string>, rest: seq<Token>)
    ensures PutField(Field(3, Items(false, TString, StrValues(texts))), rest) == ListWritten(texts) + rest
  {
    var tail := [ItemsEnd(false)] + ([FieldEnd] + rest);
    TextsTokens(texts, tail);
    assert tail == [ItemsEnd(false), FieldEnd] + rest;
  }
}
