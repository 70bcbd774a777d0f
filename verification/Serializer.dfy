/**
 The schema-driven binary serializer: a printer and a parser for the Borsh format
 that read the same schema.

 Strings and attribute names are their UTF-8 bytes.
 */
module Serializer {
  import opened Prelude

  type Name = seq<Byte>

  datatype FieldType =
    | Tuple(items: seq<FieldType>)
    | Bool
    | UInt(bits: nat)
    | Str
    | FixedBytes(length: nat)
    | List(elem: FieldType)
    | Optional(inner: FieldType)
    | Class(name: Name)

  datatype Field = Field(name: Name, typ: FieldType)

  datatype ClassSchema =
    | Struct(fields: seq<Field>)
    | Enum(field: Name, values: seq<Field>)

  type Schema = map<Name, ClassSchema>

  datatype Value =
    | Nothing
    | Boolean(b: bool)
    | Number(n: int)
    | Bytes(bytes: seq<Byte>)
    | Text(utf8: seq<Byte>)
    | TupleOf(items: seq<Value>)
    | ListOf(items: seq<Value>)
    | Object(typ: Name, attrs: map<Name, Value>)

  // ---------------------------------------------------------------------------
  // Numbers
  // ---------------------------------------------------------------------------

  function Pow256(k: nat): nat {
    if k == 0 then 1 else 256 * Pow256(k - 1)
  }

  function LittleEndian(n: nat, k: nat): (bytes: seq<Byte>)
    ensures |bytes| == k
  {
    if k == 0 then [] else [n % 256] + LittleEndian(n / 256, k - 1)
  }

  /** What is left of `n` after `k` bytes have been split off. */
  function Leftover(n: nat, k: nat): nat {
    if k == 0 then n else Leftover(n / 256, k - 1)
  }

  function FromLittleEndian(bytes: seq<Byte>): nat {
    if bytes == [] then 0 else bytes[0] + 256 * FromLittleEndian(bytes[1..])
  }

  lemma {:induction false} NumberFits(n: nat, k: nat)
    ensures Leftover(n, k) == 0 <==> n < Pow256(k)
  {
    if k > 0 {
      NumberFits(n / 256, k - 1);
    }
  }

  lemma {:induction false} NumberRoundTrip(n: nat, k: nat)
    requires n < Pow256(k)
    ensures FromLittleEndian(LittleEndian(n, k)) == n
  {
    if k > 0 {
      NumberRoundTrip(n / 256, k - 1);
      assert LittleEndian(n, k)[1..] == LittleEndian(n / 256, k - 1);
    }
  }

  lemma {:induction false} NumberBound(bytes: seq<Byte>)
    ensures FromLittleEndian(bytes) < Pow256(|bytes|)
  {
    if bytes != [] {
      NumberBound(bytes[1..]);
    }
  }

  // ---------------------------------------------------------------------------
  // Printing
  // ---------------------------------------------------------------------------

  /** What was appended, and whether no assertion failed on the way. */
  datatype Printed = Printed(ok: bool, bytes: seq<Byte>)

  function Then(a: Printed, b: Printed): Printed {
    if a.ok then Printed(b.ok, a.bytes + b.bytes) else a
  }

  function PrintNum(n: int, k: nat): Printed {
    if n < 0 then Printed(false, []) else Printed(Leftover(n, k) == 0, LittleEndian(n, k))
  }

  function Repeat(t: FieldType, n: nat): (ts: seq<FieldType>)
    ensures |ts| == n && forall i :: 0 <= i < n ==> ts[i] == t
  {
    seq(n, _ => t)
  }

  /** The first position of a name. */
  function IndexOf(values: seq<Field>, name: Name): (i: nat)
    ensures i <= |values|
    ensures i < |values| ==> values[i].name == name
    ensures forall j :: 0 <= j < i ==> values[j].name != name
  {
    if values == [] || values[0].name == name then 0 else 1 + IndexOf(values[1..], name)
  }

  predicate Continuation(b: Byte) {
    0x80 <= b <= 0xBF
  }

  /** Well-formed UTF-8 (table 3-7 of The Unicode Standard). */
  predicate IsUtf8(s: seq<Byte>) {
    if s == [] then true
    else if s[0] <= 0x7F then IsUtf8(s[1..])
    else if |s| >= 2 && 0xC2 <= s[0] <= 0xDF && Continuation(s[1]) then IsUtf8(s[2..])
    else if |s| >= 3 && 0xE0 <= s[0] <= 0xEF && Continuation(s[1]) && Continuation(s[2])
            && (s[0] == 0xE0 ==> s[1] >= 0xA0) && (s[0] == 0xED ==> s[1] <= 0x9F) then IsUtf8(s[3..])
    else if |s| >= 4 && 0xF0 <= s[0] <= 0xF4 && Continuation(s[1]) && Continuation(s[2]) && Continuation(s[3])
            && (s[0] == 0xF0 ==> s[1] >= 0x90) && (s[0] == 0xF4 ==> s[1] <= 0x8F) then IsUtf8(s[4..])
    else false
  }

  function PrintField(schema: Schema, t: FieldType, v: Value): Printed
    decreases v, 2, t
  {
    match t
    case Tuple(ts) =>
      if ts == [] then Printed(true, [])
      else if (v.TupleOf? || v.ListOf?) && |v.items| == |ts| then PrintAll(schema, ts, v.items)
      else Printed(false, [])
    case Bool => if v.Boolean? then PrintNum(if v.b then 1 else 0, 1) else Printed(false, [])
    case UInt(bits) =>
      if v.Number? then PrintNum(v.n, bits / 8)
      else if v.Boolean? then PrintNum(if v.b then 1 else 0, bits / 8)
      else Printed(false, [])
    case Str =>
      if v.Text? && IsUtf8(v.utf8) then Then(PrintNum(|v.utf8|, 4), Printed(true, v.utf8)) else Printed(false, [])
    case FixedBytes(length) =>
      if v.Bytes? && |v.bytes| == length then Printed(true, v.bytes) else Printed(false, [])
    case List(elem) =>
      if v.TupleOf? || v.ListOf?
      then Then(PrintNum(|v.items|, 4), PrintAll(schema, Repeat(elem, |v.items|), v.items))
      else Printed(false, [])
    case Optional(inner) =>
      if v == Nothing then PrintNum(0, 1) else Then(PrintNum(1, 1), PrintField(schema, inner, v))
    case Class(name) =>
      if v.Object? && v.typ == name then PrintStruct(schema, v) else Printed(false, [])
  }

  function PrintAll(schema: Schema, ts: seq<FieldType>, vs: seq<Value>): Printed
    requires |ts| == |vs|
    decreases vs
  {
    if ts == [] then Printed(true, [])
    else Then(PrintField(schema, ts[0], vs[0]), PrintAll(schema, ts[1..], vs[1..]))
  }

  function PrintStruct(schema: Schema, v: Value): Printed
    requires v.Object?
    decreases v, 1
  {
    if v.typ !in schema then Printed(false, [])
    else
      match schema[v.typ]
      case Struct(fields) => PrintFields(schema, fields, v)
      case Enum(field, values) =>
        if field !in v.attrs || !v.attrs[field].Text? then Printed(false, [])
        else
          var idx := IndexOf(values, v.attrs[field].utf8);
          if idx == |values| then Printed(false, [])
          else Then(PrintNum(idx, 1), PrintAttr(schema, values[idx], v))
  }

  function PrintAttr(schema: Schema, f: Field, v: Value): Printed
    requires v.Object?
    decreases v, 0, 0
  {
    if f.name in v.attrs then PrintField(schema, f.typ, v.attrs[f.name]) else Printed(false, [])
  }

  function PrintFields(schema: Schema, fields: seq<Field>, v: Value): Printed
    requires v.Object?
    decreases v, 0, |fields|
  {
    if fields == [] then Printed(true, [])
    else Then(PrintAttr(schema, fields[0], v), PrintFields(schema, fields[1..], v))
  }

  // ---------------------------------------------------------------------------
  // The format
  // ---------------------------------------------------------------------------

  /** The `k` digits of a number to the base 256, lowest first. */
  ghost predicate Digits(bytes: seq<Byte>, n: int, k: nat) {
    && 0 <= n < Pow256(k) && |bytes| == k
    && (forall i :: 0 <= i < k ==> Pow256(i) > 0 && bytes[i] == n / Pow256(i) % 256)
  }

  /** The bytes that stand for a value of a type. */
  ghost predicate Wire(schema: Schema, t: FieldType, v: Value, bytes: seq<Byte>)
    decreases v, 2, t
  {
    match t
    case Tuple(ts) =>
      if ts == [] then bytes == []
      else (v.TupleOf? || v.ListOf?) && |v.items| == |ts| && WireAll(schema, ts, v.items, bytes)
    case Bool => v.Boolean? && bytes == if v.b then [1] else [0]
    case UInt(bits) =>
      (v.Number? && Digits(bytes, v.n, bits / 8)) || (v.Boolean? && Digits(bytes, if v.b then 1 else 0, bits / 8))
    case Str =>
      v.Text? && IsUtf8(v.utf8) && |bytes| >= 4 && Digits(bytes[..4], |v.utf8|, 4) && bytes[4..] == v.utf8
    case FixedBytes(length) => v.Bytes? && bytes == v.bytes && |bytes| == length
    case List(elem) =>
      && (v.TupleOf? || v.ListOf?) && |bytes| >= 4 && Digits(bytes[..4], |v.items|, 4)
      && WireAll(schema, Repeat(elem, |v.items|), v.items, bytes[4..])
    case Optional(inner) =>
      if v == Nothing then bytes == [0] else bytes != [] && bytes[0] == 1 && Wire(schema, inner, v, bytes[1..])
    case Class(name) => v.Object? && v.typ == name && WireStruct(schema, v, bytes)
  }

  /** One after the other. */
  ghost predicate WireAll(schema: Schema, ts: seq<FieldType>, vs: seq<Value>, bytes: seq<Byte>)
    requires |ts| == |vs|
    decreases vs
  {
    if ts == [] then bytes == []
    else
      exists k :: && 0 <= k <= |bytes| && Wire(schema, ts[0], vs[0], bytes[..k])
                  && WireAll(schema, ts[1..], vs[1..], bytes[k..])
  }

  ghost predicate WireStruct(schema: Schema, v: Value, bytes: seq<Byte>)
    requires v.Object?
    decreases v, 1
  {
    && v.typ in schema
    && match schema[v.typ]
       case Struct(fields) => WireFields(schema, fields, v, bytes)
       case Enum(field, values) =>
         && field in v.attrs && v.attrs[field].Text? && bytes != []
         && var idx := IndexOf(values, v.attrs[field].utf8);
            idx < |values| && bytes[0] == idx && WireAttr(schema, values[idx], v, bytes[1..])
  }

  ghost predicate WireAttr(schema: Schema, f: Field, v: Value, bytes: seq<Byte>)
    requires v.Object?
    decreases v, 0, 0
  {
    f.name in v.attrs && Wire(schema, f.typ, v.attrs[f.name], bytes)
  }

  /** The fields in the order of the schema. */
  ghost predicate WireFields(schema: Schema, fields: seq<Field>, v: Value, bytes: seq<Byte>)
    requires v.Object?
    decreases v, 0, |fields|
  {
    if fields == [] then bytes == []
    else
      exists k :: && 0 <= k <= |bytes| && WireAttr(schema, fields[0], v, bytes[..k])
                  && WireFields(schema, fields[1..], v, bytes[k..])
  }

  lemma {:induction false} PowPositive(k: nat)
    ensures Pow256(k) > 0
  {
    if k > 0 {
      PowPositive(k - 1);
    }
  }

  lemma DivideTwice(n: nat, p: nat)
    requires p > 0
    ensures n / (256 * p) == n / 256 / p
  {
    var q := n / 256;
    var a := q / p;
    assert q == p * a + q % p && n == 256 * q + n % 256;
    assert n == (256 * p) * a + (256 * (q % p) + n % 256);
    assert 0 <= 256 * (q % p) + n % 256 < 256 * p;
    QuotientUnique(n, 256 * p, a, 256 * (q % p) + n % 256);
  }

  lemma QuotientUnique(n: nat, d: nat, q: nat, r: nat)
    requires d > 0 && n == d * q + r && r < d
    ensures n / d == q
  {
    TimesGrows(d, n / d, q);
    TimesGrows(d, q, n / d);
  }

  lemma TimesGrows(d: nat, a: nat, b: nat)
    ensures a < b ==> d * a + d <= d * b
  {
    if a < b {
      assert d * b == d * a + d + d * (b - a - 1);
    }
  }

  lemma {:induction false} LittleEndianDigit(n: nat, k: nat, i: nat)
    requires i < k
    ensures Pow256(i) > 0 && LittleEndian(n, k)[i] == n / Pow256(i) % 256
  {
    PowPositive(i);
    if i > 0 {
      LittleEndianDigit(n / 256, k - 1, i - 1);
      DivideTwice(n, Pow256(i - 1));
    }
  }

  /** A number prints as its digits, and only a number that fits. */
  lemma NumberIsDigits(n: int, k: nat, bytes: seq<Byte>)
    ensures Digits(bytes, n, k) <==> PrintNum(n, k) == Printed(true, bytes)
  {
    if n >= 0 {
      NumberFits(n, k);
      forall i | 0 <= i < k ensures Pow256(i) > 0 && LittleEndian(n, k)[i] == n / Pow256(i) % 256 {
        LittleEndianDigit(n, k, i);
      }
    }
  }

  /** A tag prints as one byte. */
  lemma TagIsByte(n: nat)
    ensures PrintNum(n, 1) == if n < 256 then Printed(true, [n]) else Printed(false, [n % 256])
  {
    assert LittleEndian(n, 1) == [n % 256] && Leftover(n, 1) == n / 256;
  }

  lemma ThenIff(a: Printed, b: Printed, bytes: seq<Byte>, k: nat)
    requires k <= |bytes| && (a.ok ==> |a.bytes| == k)
    ensures Then(a, b) == Printed(true, bytes) <==> a == Printed(true, bytes[..k]) && b == Printed(true, bytes[k..])
  {
    if a == Printed(true, bytes[..k]) && b == Printed(true, bytes[k..]) {
      assert bytes[..k] + bytes[k..] == bytes;
    }
  }

  /** What prints, prints as its bytes in this format, and nothing else has any. */
  lemma {:induction false} PrintsWire(schema: Schema, t: FieldType, v: Value, bytes: seq<Byte>)
    ensures Wire(schema, t, v, bytes) <==> PrintField(schema, t, v) == Printed(true, bytes)
    decreases v, 2, t
  {
    match t
    case Tuple(ts) =>
      if ts != [] && (v.TupleOf? || v.ListOf?) && |v.items| == |ts| {
        PrintsWireAll(schema, ts, v.items, bytes);
      }
    case Bool =>
      TagIsByte(1);
      TagIsByte(0);
    case UInt(bits) =>
      if v.Number? || v.Boolean? {
        NumberIsDigits(if v.Number? then v.n else if v.b then 1 else 0, bits / 8, bytes);
      }
    case Str =>
      if v.Text? {
        PrintsCounted(|v.utf8|, Printed(true, v.utf8), bytes);
      }
    case FixedBytes(_) =>
    case List(elem) =>
      if v.TupleOf? || v.ListOf? {
        PrintsCounted(|v.items|, PrintAll(schema, Repeat(elem, |v.items|), v.items), bytes);
        if |bytes| >= 4 {
          PrintsWireAll(schema, Repeat(elem, |v.items|), v.items, bytes[4..]);
        }
      }
    case Optional(inner) =>
      PrintsTagged(1, PrintField(schema, inner, v), bytes);
      TagIsByte(0);
      if v != Nothing && bytes != [] {
        PrintsWire(schema, inner, v, bytes[1..]);
      }
    case Class(name) =>
      if v.Object? {
        PrintsWireStruct(schema, v, bytes);
      }
  }

  lemma PrintsCounted(n: nat, rest: Printed, bytes: seq<Byte>)
    ensures Then(PrintNum(n, 4), rest) == Printed(true, bytes) <==>
            |bytes| >= 4 && Digits(bytes[..4], n, 4) && rest == Printed(true, bytes[4..])
  {
    if |bytes| >= 4 {
      ThenIff(PrintNum(n, 4), rest, bytes, 4);
      NumberIsDigits(n, 4, bytes[..4]);
    }
  }

  lemma PrintsTagged(n: nat, rest: Printed, bytes: seq<Byte>)
    ensures Then(PrintNum(n, 1), rest) == Printed(true, bytes) <==>
            bytes != [] && bytes[0] == n && rest == Printed(true, bytes[1..])
  {
    TagIsByte(n);
    if bytes != [] {
      ThenIff(PrintNum(n, 1), rest, bytes, 1);
      assert bytes[..1] == [bytes[0]];
    }
  }

  lemma {:induction false} PrintsWireAll(schema: Schema, ts: seq<FieldType>, vs: seq<Value>, bytes: seq<Byte>)
    requires |ts| == |vs|
    ensures WireAll(schema, ts, vs, bytes) <==> PrintAll(schema, ts, vs) == Printed(true, bytes)
    decreases vs
  {
    if ts != [] {
      var first, rest := PrintField(schema, ts[0], vs[0]), PrintAll(schema, ts[1..], vs[1..]);
      forall k | 0 <= k <= |bytes|
        ensures Wire(schema, ts[0], vs[0], bytes[..k]) && WireAll(schema, ts[1..], vs[1..], bytes[k..]) <==>
                first == Printed(true, bytes[..k]) && rest == Printed(true, bytes[k..])
      {
        PrintsWire(schema, ts[0], vs[0], bytes[..k]);
        PrintsWireAll(schema, ts[1..], vs[1..], bytes[k..]);
      }
      SplitIff(first, rest, bytes);
    }
  }

  lemma SplitIff(first: Printed, rest: Printed, bytes: seq<Byte>)
    ensures Then(first, rest) == Printed(true, bytes) <==>
            exists k :: 0 <= k <= |bytes| && first == Printed(true, bytes[..k]) && rest == Printed(true, bytes[k..])
  {
    if k :| 0 <= k <= |bytes| && first == Printed(true, bytes[..k]) && rest == Printed(true, bytes[k..]) {
      assert bytes[..k] + bytes[k..] == bytes;
    }
    if Then(first, rest) == Printed(true, bytes) {
      var k := |first.bytes|;
      assert first == Printed(true, bytes[..k]) && rest == Printed(true, bytes[k..]);
    }
  }

  lemma {:induction false} PrintsWireStruct(schema: Schema, v: Value, bytes: seq<Byte>)
    requires v.Object?
    ensures WireStruct(schema, v, bytes) <==> PrintStruct(schema, v) == Printed(true, bytes)
    decreases v, 1
  {
    if v.typ in schema {
      match schema[v.typ]
      case Struct(fields) => PrintsWireFields(schema, fields, v, bytes);
      case Enum(field, values) =>
        if field in v.attrs && v.attrs[field].Text? {
          var idx := IndexOf(values, v.attrs[field].utf8);
          if idx < |values| {
            PrintsTagged(idx, PrintAttr(schema, values[idx], v), bytes);
            if bytes != [] {
              PrintsWireAttr(schema, values[idx], v, bytes[1..]);
            }
          }
        }
    }
  }

  lemma {:induction false} PrintsWireAttr(schema: Schema, f: Field, v: Value, bytes: seq<Byte>)
    requires v.Object?
    ensures WireAttr(schema, f, v, bytes) <==> PrintAttr(schema, f, v) == Printed(true, bytes)
    decreases v, 0, 0
  {
    if f.name in v.attrs {
      PrintsWire(schema, f.typ, v.attrs[f.name], bytes);
    }
  }

  lemma {:induction false} PrintsWireFields(schema: Schema, fields: seq<Field>, v: Value, bytes: seq<Byte>)
    requires v.Object?
    ensures WireFields(schema, fields, v, bytes) <==> PrintFields(schema, fields, v) == Printed(true, bytes)
    decreases v, 0, |fields|
  {
    if fields != [] {
      var first, rest := PrintAttr(schema, fields[0], v), PrintFields(schema, fields[1..], v);
      forall k | 0 <= k <= |bytes|
        ensures WireAttr(schema, fields[0], v, bytes[..k]) && WireFields(schema, fields[1..], v, bytes[k..]) <==>
                first == Printed(true, bytes[..k]) && rest == Printed(true, bytes[k..])
      {
        PrintsWireAttr(schema, fields[0], v, bytes[..k]);
        PrintsWireFields(schema, fields[1..], v, bytes[k..]);
      }
      SplitIff(first, rest, bytes);
    }
  }

  // ---------------------------------------------------------------------------
  // Parsing
  // ---------------------------------------------------------------------------

  /** The value read, or nothing if an assertion failed or the call stack was exhausted, and where reading stopped. */
  datatype Parsed<+T> = Parsed(value: Option<T>, next: nat)

  function ReadBytes(buf: seq<Byte>, at: nat, n: nat): Parsed<seq<Byte>> {
    if at + n <= |buf| then Parsed(Some(buf[at..at + n]), at + n) else Parsed(None, at)
  }

  function ParseNum(buf: seq<Byte>, at: nat, k: nat): Parsed<nat> {
    var r := ReadBytes(buf, at, k);
    if r.value == None then Parsed(None, r.next) else Parsed(Some(FromLittleEndian(r.value.value)), r.next)
  }

  /** `depth` is the depth of the call stack still available. */
  function ParseField(schema: Schema, t: FieldType, buf: seq<Byte>, at: nat, depth: nat): Parsed<Value>
    decreases depth, 0
  {
    if depth == 0 then Parsed(None, at)
    else
      match t
      case Tuple(ts) =>
        if ts == [] then Parsed(Some(Nothing), at)
        else
          var r := ParseAll(schema, ts, buf, at, depth - 1);
          if r.value == None then Parsed(None, r.next) else Parsed(Some(TupleOf(r.value.value)), r.next)
      case Bool =>
        var r := ParseNum(buf, at, 1);
        if r.value == None || r.value.value > 1 then Parsed(None, r.next)
        else Parsed(Some(Boolean(r.value.value == 1)), r.next)
      case UInt(bits) =>
        var r := ParseNum(buf, at, bits / 8);
        if r.value == None then Parsed(None, r.next) else Parsed(Some(Number(r.value.value)), r.next)
      case Str =>
        var n := ParseNum(buf, at, 4);
        if n.value == None then Parsed(None, n.next)
        else
          var r := ReadBytes(buf, n.next, n.value.value);
          if r.value == None || !IsUtf8(r.value.value) then Parsed(None, r.next)
          else Parsed(Some(Text(r.value.value)), r.next)
      case FixedBytes(length) =>
        var r := ReadBytes(buf, at, length);
        if r.value == None then Parsed(None, r.next) else Parsed(Some(Bytes(r.value.value)), r.next)
      case List(elem) =>
        var n := ParseNum(buf, at, 4);
        if n.value == None then Parsed(None, n.next)
        else
          var r := ParseAll(schema, Repeat(elem, n.value.value), buf, n.next, depth - 1);
          if r.value == None then Parsed(None, r.next) else Parsed(Some(ListOf(r.value.value)), r.next)
      case Optional(inner) =>
        var tag := ParseNum(buf, at, 1);
        if tag.value == None then Parsed(None, tag.next)
        else if tag.value.value == 0 then Parsed(Some(Nothing), tag.next)
        else ParseField(schema, inner, buf, tag.next, depth - 1)
      case Class(name) => ParseStruct(schema, name, buf, at, depth - 1)
  }

  function ParseAll(schema: Schema, ts: seq<FieldType>, buf: seq<Byte>, at: nat, depth: nat): (r: Parsed<seq<Value>>)
    ensures r.value.Some? ==> |r.value.value| == |ts|
    decreases depth, |ts| + 1
  {
    if ts == [] then Parsed(Some([]), at)
    else
      var first := ParseField(schema, ts[0], buf, at, depth);
      if first.value == None then Parsed(None, first.next)
      else
        var rest := ParseAll(schema, ts[1..], buf, first.next, depth);
        if rest.value == None then Parsed(None, rest.next)
        else Parsed(Some([first.value.value] + rest.value.value), rest.next)
  }

  function ParseStruct(schema: Schema, name: Name, buf: seq<Byte>, at: nat, depth: nat): Parsed<Value>
    decreases depth, if name in schema && schema[name].Struct? then |schema[name].fields| + 2 else 1
  {
    if name !in schema then Parsed(None, at)
    else
      match schema[name]
      case Struct(fields) =>
        var r := ParseFields(schema, fields, map[], buf, at, depth);
        if r.value == None then Parsed(None, r.next) else Parsed(Some(Object(name, r.value.value)), r.next)
      case Enum(field, values) =>
        var ord := ParseNum(buf, at, 1);
        if ord.value == None || ord.value.value >= |values| then Parsed(None, ord.next)
        else
          var f := values[ord.value.value];
          var r := ParseField(schema, f.typ, buf, ord.next, depth);
          if r.value == None then Parsed(None, r.next)
          else Parsed(Some(Object(name, map[field := Text(f.name)][f.name := r.value.value])), r.next)
  }

  function ParseFields(schema: Schema, fields: seq<Field>, attrs: map<Name, Value>, buf: seq<Byte>, at: nat, depth: nat):
    Parsed<map<Name, Value>>
    decreases depth, |fields| + 1
  {
    if fields == [] then Parsed(Some(attrs), at)
    else
      var r := ParseField(schema, fields[0].typ, buf, at, depth);
      if r.value == None then Parsed(None, r.next)
      else ParseFields(schema, fields[1..], attrs[fields[0].name := r.value.value], buf, r.next, depth)
  }

  lemma ByteReads(buf: seq<Byte>, at: nat)
    ensures ParseNum(buf, at, 1) == if at < |buf| then Parsed(Some(buf[at]), at + 1) else Parsed(None, at)
  {
    if at < |buf| {
      assert buf[at..at + 1] == [buf[at]];
      assert FromLittleEndian([buf[at]]) == buf[at] + 256 * FromLittleEndian([buf[at]][1..]);
    }
  }

  /** How a byte is read as a bool or as the tag of an option: only 0 and 1 are bools, and every tag but 0 stands for a
      value. */
  lemma TagsRead(schema: Schema, inner: FieldType, buf: seq<Byte>, at: nat, depth: nat)
    requires at < |buf| && depth > 0
    ensures ParseField(schema, Bool, buf, at, depth) ==
            Parsed(if buf[at] == 0 then Some(Boolean(false)) else if buf[at] == 1 then Some(Boolean(true)) else None, at + 1)
    ensures ParseField(schema, Optional(inner), buf, at, depth) ==
            if buf[at] == 0 then Parsed(Some(Nothing), at + 1) else ParseField(schema, inner, buf, at + 1, depth - 1)
  {
    ByteReads(buf, at);
  }

  // ---------------------------------------------------------------------------
  // Values of a type
  // ---------------------------------------------------------------------------

  function Names(fields: seq<Field>): set<Name> {
    set i | 0 <= i < |fields| :: fields[i].name
  }

  ghost predicate WellTyped(schema: Schema, t: FieldType, v: Value)
    decreases v, 2, t
  {
    match t
    case Tuple(ts) =>
      if ts == [] then v == Nothing
      else v.TupleOf? && |v.items| == |ts| && forall i :: 0 <= i < |ts| ==> WellTyped(schema, ts[i], v.items[i])
    case Bool => v.Boolean?
    case UInt(bits) => v.Number? && 0 <= v.n < Pow256(bits / 8)
    case Str => v.Text? && |v.utf8| < Pow256(4) && IsUtf8(v.utf8)
    case FixedBytes(length) => v.Bytes? && |v.bytes| == length
    case List(elem) =>
      v.ListOf? && |v.items| < Pow256(4) && forall i :: 0 <= i < |v.items| ==> WellTyped(schema, elem, v.items[i])
    case Optional(inner) => v == Nothing || WellTyped(schema, inner, v)
    case Class(name) => v.Object? && v.typ == name && WellFormed(schema, v)
  }

  ghost predicate HasAttr(schema: Schema, f: Field, v: Value)
    requires v.Object?
    decreases v, 0
  {
    f.name in v.attrs && WellTyped(schema, f.typ, v.attrs[f.name])
  }

  ghost predicate WellFormed(schema: Schema, v: Value)
    requires v.Object?
    decreases v, 1
  {
    v.typ in schema &&
    match schema[v.typ]
    case Struct(fields) =>
      v.attrs.Keys == Names(fields) && forall i :: 0 <= i < |fields| ==> HasAttr(schema, fields[i], v)
    case Enum(field, values) =>
      && field in v.attrs && v.attrs[field].Text?
      && var idx := IndexOf(values, v.attrs[field].utf8);
         && idx < |values| && idx < 256 && v.attrs.Keys == {field, values[idx].name} && HasAttr(schema, values[idx], v)
  }

  /** How deep the calls nest when the value is read back. */
  function Depth(schema: Schema, t: FieldType, v: Value): nat
    decreases v, 2, t
  {
    match t
    case Tuple(ts) =>
      if (v.TupleOf? || v.ListOf?) && |v.items| == |ts| then 1 + DepthOfAll(schema, ts, v.items) else 1
    case List(elem) =>
      if v.TupleOf? || v.ListOf? then 1 + DepthOfAll(schema, Repeat(elem, |v.items|), v.items) else 1
    case Optional(inner) => if v == Nothing then 1 else 1 + Depth(schema, inner, v)
    case Class(_) => if v.Object? then 1 + DepthOfStruct(schema, v) else 1
    case _ => 1
  }

  function DepthOfAll(schema: Schema, ts: seq<FieldType>, vs: seq<Value>): nat
    requires |ts| == |vs|
    decreases vs
  {
    if ts == [] then 0 else Max(Depth(schema, ts[0], vs[0]), DepthOfAll(schema, ts[1..], vs[1..]))
  }

  function DepthOfStruct(schema: Schema, v: Value): nat
    requires v.Object?
    decreases v, 1
  {
    if v.typ !in schema then 0
    else
      match schema[v.typ]
      case Struct(fields) => DepthOfFields(schema, fields, v)
      case Enum(_, values) => DepthOfFields(schema, values, v)
  }

  function DepthOfFields(schema: Schema, fields: seq<Field>, v: Value): (d: nat)
    requires v.Object?
    ensures forall i :: 0 <= i < |fields| && fields[i].name in v.attrs ==>
                         d >= Depth(schema, fields[i].typ, v.attrs[fields[i].name])
    decreases v, 0, |fields|
  {
    if fields == [] then 0
    else
      var f := fields[0];
      Max(if f.name in v.attrs then Depth(schema, f.typ, v.attrs[f.name]) else 0, DepthOfFields(schema, fields[1..], v))
  }

  // ---------------------------------------------------------------------------
  // Round trip
  // ---------------------------------------------------------------------------

  lemma ReadBack(pre: seq<Byte>, bytes: seq<Byte>, post: seq<Byte>)
    ensures ReadBytes(pre + bytes + post, |pre|, |bytes|) == Parsed(Some(bytes), |pre| + |bytes|)
  {
    assert (pre + bytes + post)[|pre|..|pre| + |bytes|] == bytes;
  }

  lemma {:induction false} NumReadBack(pre: seq<Byte>, n: nat, k: nat, post: seq<Byte>)
    requires n < Pow256(k)
    ensures PrintNum(n, k).ok && |PrintNum(n, k).bytes| == k
    ensures ParseNum(pre + PrintNum(n, k).bytes + post, |pre|, k) == Parsed(Some(n), |pre| + k)
  {
    NumberFits(n, k);
    NumberRoundTrip(n, k);
    ReadBack(pre, PrintNum(n, k).bytes, post);
  }

  /** The bytes of a pair, seen from its second part. */
  lemma Regroup(pre: seq<Byte>, a: seq<Byte>, b: seq<Byte>, post: seq<Byte>)
    ensures pre + (a + b) + post == pre + a + (b + post) == (pre + a) + b + post
  {
  }

  /** A well-typed value prints, and read back between any bytes it is the same value and takes exactly its bytes. */
  ghost predicate ReadsBack(schema: Schema, t: FieldType, v: Value, pre: seq<Byte>, post: seq<Byte>, depth: nat) {
    var printed := PrintField(schema, t, v);
    && printed.ok
    && ParseField(schema, t, pre + printed.bytes + post, |pre|, depth) == Parsed(Some(v), |pre| + |printed.bytes|)
  }

  lemma {:induction false} RoundTrip(schema: Schema, t: FieldType, v: Value, pre: seq<Byte>, post: seq<Byte>, depth: nat)
    requires WellTyped(schema, t, v) && depth >= Depth(schema, t, v)
    ensures ReadsBack(schema, t, v, pre, post, depth)
    decreases v, 2, t
  {
    match t
    case Tuple(ts) =>
      if ts != [] {
        RoundTripAll(schema, ts, v.items, pre, post, depth - 1);
      }
    case List(elem) => RoundTripList(schema, elem, v, pre, post, depth);
    case Optional(inner) => RoundTripOptional(schema, inner, v, pre, post, depth);
    case Class(_) => RoundTripStruct(schema, v, pre, post, depth - 1);
    case Str => RoundTripText(schema, v, pre, post, depth);
    case _ => RoundTripLeaf(schema, t, v, pre, post, depth);
  }

  lemma {:induction false} RoundTripLeaf(schema: Schema, t: FieldType, v: Value, pre: seq<Byte>, post: seq<Byte>, depth: nat)
    requires t.Bool? || t.UInt? || t.FixedBytes?
    requires WellTyped(schema, t, v) && depth > 0
    ensures ReadsBack(schema, t, v, pre, post, depth)
  {
    match t
    case Bool => NumReadBack(pre, if v.b then 1 else 0, 1, post);
    case UInt(bits) => NumReadBack(pre, v.n, bits / 8, post);
    case FixedBytes(_) => ReadBack(pre, v.bytes, post);
  }

  lemma {:induction false} RoundTripText(schema: Schema, v: Value, pre: seq<Byte>, post: seq<Byte>, depth: nat)
    requires WellTyped(schema, Str, v) && depth > 0
    ensures ReadsBack(schema, Str, v, pre, post, depth)
  {
    var n := PrintNum(|v.utf8|, 4);
    NumReadBack(pre, |v.utf8|, 4, v.utf8 + post);
    ReadBack(pre + n.bytes, v.utf8, post);
    Regroup(pre, n.bytes, v.utf8, post);
  }

  lemma {:induction false} RoundTripList(schema: Schema, elem: FieldType, v: Value, pre: seq<Byte>, post: seq<Byte>, depth: nat)
    requires WellTyped(schema, List(elem), v) && depth >= Depth(schema, List(elem), v)
    ensures ReadsBack(schema, List(elem), v, pre, post, depth)
    decreases v, 0
  {
    var n, ts := PrintNum(|v.items|, 4), Repeat(elem, |v.items|);
    var all := PrintAll(schema, ts, v.items);
    NumReadBack(pre, |v.items|, 4, all.bytes + post);
    RoundTripAll(schema, ts, v.items, pre + n.bytes, post, depth - 1);
    Regroup(pre, n.bytes, all.bytes, post);
  }

  lemma {:induction false} RoundTripOptional(schema: Schema, inner: FieldType, v: Value, pre: seq<Byte>, post: seq<Byte>, depth: nat)
    requires WellTyped(schema, Optional(inner), v) && depth >= Depth(schema, Optional(inner), v)
    ensures ReadsBack(schema, Optional(inner), v, pre, post, depth)
    decreases v, 2, Optional(inner), 0
  {
    assert Pow256(1) == 256;
    if v == Nothing {
      NumReadBack(pre, 0, 1, post);
    } else {
      var tag, rest := PrintNum(1, 1), PrintField(schema, inner, v);
      NumReadBack(pre, 1, 1, rest.bytes + post);
      RoundTrip(schema, inner, v, pre + tag.bytes, post, depth - 1);
      Regroup(pre, tag.bytes, rest.bytes, post);
    }
  }

  lemma {:induction false} RoundTripAll(
    schema: Schema, ts: seq<FieldType>, vs: seq<Value>, pre: seq<Byte>, post: seq<Byte>, depth: nat)
    requires |ts| == |vs| && (forall i :: 0 <= i < |ts| ==> WellTyped(schema, ts[i], vs[i]))
    requires depth >= DepthOfAll(schema, ts, vs)
    ensures var printed := PrintAll(schema, ts, vs);
            && printed.ok
            && ParseAll(schema, ts, pre + printed.bytes + post, |pre|, depth) == Parsed(Some(vs), |pre| + |printed.bytes|)
    decreases vs
  {
    if ts != [] {
      var first, rest := PrintField(schema, ts[0], vs[0]), PrintAll(schema, ts[1..], vs[1..]);
      RoundTrip(schema, ts[0], vs[0], pre, rest.bytes + post, depth);
      RoundTripAll(schema, ts[1..], vs[1..], pre + first.bytes, post, depth);
      Regroup(pre, first.bytes, rest.bytes, post);
      assert vs == [vs[0]] + vs[1..];
    }
  }

  lemma {:induction false} RoundTripStruct(schema: Schema, v: Value, pre: seq<Byte>, post: seq<Byte>, depth: nat)
    requires v.Object? && WellFormed(schema, v) && depth >= DepthOfStruct(schema, v)
    ensures var printed := PrintStruct(schema, v);
            && printed.ok
            && ParseStruct(schema, v.typ, pre + printed.bytes + post, |pre|, depth)
               == Parsed(Some(v), |pre| + |printed.bytes|)
    decreases v, 1
  {
    if schema[v.typ].Struct? {
      var fields := schema[v.typ].fields;
      var empty: map<Name, Value> := map[];
      var m := RoundTripFields(schema, fields, v, empty, pre, post, depth);
      assert m == v.attrs;
    } else {
      RoundTripEnum(schema, v, pre, post, depth);
    }
  }

  lemma {:induction false} RoundTripEnum(schema: Schema, v: Value, pre: seq<Byte>, post: seq<Byte>, depth: nat)
    requires v.Object? && WellFormed(schema, v) && schema[v.typ].Enum? && depth >= DepthOfStruct(schema, v)
    ensures var printed := PrintStruct(schema, v);
            && printed.ok
            && ParseStruct(schema, v.typ, pre + printed.bytes + post, |pre|, depth)
               == Parsed(Some(v), |pre| + |printed.bytes|)
    decreases v, 0
  {
    var Enum(field, values) := schema[v.typ];
    var idx := IndexOf(values, v.attrs[field].utf8);
    var f := values[idx];
    var tag, rest := PrintNum(idx, 1), PrintField(schema, f.typ, v.attrs[f.name]);
    assert Pow256(1) == 256;
    NumReadBack(pre, idx, 1, rest.bytes + post);
    RoundTrip(schema, f.typ, v.attrs[f.name], pre + tag.bytes, post, depth);
    Regroup(pre, tag.bytes, rest.bytes, post);
    assert v.attrs == map[field := Text(f.name)][f.name := v.attrs[f.name]];
  }

  /** The fields are read one after the other. */
  lemma {:induction false} ParseFieldsStep(schema: Schema, fields: seq<Field>, attrs: map<Name, Value>, v: Value, m: map<Name, Value>,
                        pre: seq<Byte>, first: seq<Byte>, rest: seq<Byte>, post: seq<Byte>, depth: nat)
    requires fields != []
    requires ParseField(schema, fields[0].typ, pre + first + (rest + post), |pre|, depth)
          == Parsed(Some(v), |pre| + |first|)
    requires ParseFields(schema, fields[1..], attrs[fields[0].name := v], pre + first + rest + post, |pre + first|, depth)
          == Parsed(Some(m), |pre + first| + |rest|)
    ensures ParseFields(schema, fields, attrs, pre + (first + rest) + post, |pre|, depth)
         == Parsed(Some(m), |pre| + |first + rest|)
  {
    Regroup(pre, first, rest, post);
  }

  ghost predicate Readable(schema: Schema, f: Field, v: Value, depth: nat)
    requires v.Object?
  {
    HasAttr(schema, f, v) && depth >= Depth(schema, f.typ, v.attrs[f.name])
  }

  /** Reading the fields adds the attributes they name. */
  lemma {:induction false} RoundTripFields(
    schema: Schema, fields: seq<Field>, v: Value, attrs: map<Name, Value>, pre: seq<Byte>, post: seq<Byte>, depth: nat)
    returns (m: map<Name, Value>)
    requires v.Object? && (forall i :: 0 <= i < |fields| ==> Readable(schema, fields[i], v, depth))
    requires forall k :: k in attrs ==> k in v.attrs && attrs[k] == v.attrs[k]
    ensures var printed := PrintFields(schema, fields, v);
            && printed.ok
            && ParseFields(schema, fields, attrs, pre + printed.bytes + post, |pre|, depth)
               == Parsed(Some(m), |pre| + |printed.bytes|)
    ensures m.Keys == attrs.Keys + Names(fields)
    ensures forall k :: k in m ==> k in v.attrs && m[k] == v.attrs[k]
    decreases v, 0, |fields|
  {
    if fields == [] {
      m := attrs;
    } else {
      var f := fields[0];
      assert Readable(schema, f, v, depth);
      var first, rest := PrintAttr(schema, f, v), PrintFields(schema, fields[1..], v);
      RoundTrip(schema, f.typ, v.attrs[f.name], pre, rest.bytes + post, depth);
      m := RoundTripFields(schema, fields[1..], v, attrs[f.name := v.attrs[f.name]], pre + first.bytes, post, depth);
      ParseFieldsStep(schema, fields, attrs, v.attrs[f.name], m, pre, first.bytes, rest.bytes, post, depth);
      NamesOf(fields);
    }
  }

  lemma NamesOf(fields: seq<Field>)
    requires fields != []
    ensures Names(fields) == {fields[0].name} + Names(fields[1..])
  {
    forall i | 0 < i < |fields| ensures fields[i].name in Names(fields[1..]) {
      assert fields[i] == fields[1..][i - 1];
    }
  }

  lemma {:induction false} RoundTripAtStart(schema: Schema, t: FieldType, v: Value, post: seq<Byte>, depth: nat)
    requires WellTyped(schema, t, v) && depth >= Depth(schema, t, v)
    ensures var bytes := PrintField(schema, t, v).bytes;
            ParseField(schema, t, bytes + post, 0, depth) == Parsed(Some(v), |bytes|)
  {
    RoundTrip(schema, t, v, [], post, depth);
    assert [] + PrintField(schema, t, v).bytes == PrintField(schema, t, v).bytes;
  }

  /** No encoding is a proper prefix of another of the same type, and none stands for two values. */
  lemma {:induction false} PrefixFree(schema: Schema, t: FieldType, v: Value, w: Value)
    requires WellTyped(schema, t, v) && WellTyped(schema, t, w)
    requires PrintField(schema, t, v).bytes <= PrintField(schema, t, w).bytes
    ensures v == w
  {
    var depth := Max(Depth(schema, t, v), Depth(schema, t, w));
    var a, b := PrintField(schema, t, v).bytes, PrintField(schema, t, w).bytes;
    RoundTripAtStart(schema, t, v, b[|a|..], depth);
    RoundTripAtStart(schema, t, w, [], depth);
    assert a + b[|a|..] == b == b + [];
  }

  // ---------------------------------------------------------------------------
  // Whatever prints can be read
  // ---------------------------------------------------------------------------

  /** The bytes are read, between any others, to exactly their end. */
  ghost predicate Reads(schema: Schema, t: FieldType, bytes: seq<Byte>, pre: seq<Byte>, post: seq<Byte>, depth: nat) {
    var r := ParseField(schema, t, pre + bytes + post, |pre|, depth);
    r.value.Some? && r.next == |pre| + |bytes|
  }

  lemma {:induction false} PrintedNumReads(pre: seq<Byte>, n: int, k: nat, post: seq<Byte>)
    requires PrintNum(n, k).ok
    ensures n >= 0 && n < Pow256(k) && |PrintNum(n, k).bytes| == k
    ensures ParseNum(pre + PrintNum(n, k).bytes + post, |pre|, k) == Parsed(Some(n), |pre| + k)
  {
    NumberFits(n, k);
    NumReadBack(pre, n, k, post);
  }

  /** No assertion of the printer is missing: whatever it prints, for a value of the type or not, the parser can read. */
  lemma {:induction false} PrintedReads(schema: Schema, t: FieldType, v: Value, pre: seq<Byte>, post: seq<Byte>, depth: nat)
    requires PrintField(schema, t, v).ok && depth >= Depth(schema, t, v)
    ensures Reads(schema, t, PrintField(schema, t, v).bytes, pre, post, depth)
    decreases v, 2, t
  {
    match t
    case Tuple(ts) =>
      if ts != [] {
        PrintedReadsAll(schema, ts, v.items, pre, post, depth - 1);
      }
    case List(elem) => PrintedReadsList(schema, elem, v, pre, post, depth);
    case Optional(inner) => PrintedReadsOptional(schema, inner, v, pre, post, depth);
    case Class(_) => PrintedReadsStruct(schema, v, pre, post, depth - 1);
    case Str => PrintedReadsText(schema, v, pre, post, depth);
    case _ => PrintedReadsLeaf(schema, t, v, pre, post, depth);
  }

  lemma {:induction false} PrintedReadsLeaf(schema: Schema, t: FieldType, v: Value, pre: seq<Byte>, post: seq<Byte>, depth: nat)
    requires t.Bool? || t.UInt? || t.FixedBytes?
    requires PrintField(schema, t, v).ok && depth > 0
    ensures Reads(schema, t, PrintField(schema, t, v).bytes, pre, post, depth)
  {
    match t
    case Bool => PrintedNumReads(pre, if v.b then 1 else 0, 1, post);
    case UInt(bits) => PrintedNumReads(pre, if v.Number? then v.n else if v.b then 1 else 0, bits / 8, post);
    case FixedBytes(_) => ReadBack(pre, v.bytes, post);
  }

  lemma {:induction false} PrintedReadsText(schema: Schema, v: Value, pre: seq<Byte>, post: seq<Byte>, depth: nat)
    requires PrintField(schema, Str, v).ok && depth > 0
    ensures Reads(schema, Str, PrintField(schema, Str, v).bytes, pre, post, depth)
  {
    NumberFits(|v.utf8|, 4);
    RoundTripText(schema, v, pre, post, depth);
  }

  lemma {:induction false} NumberInFront(pre: seq<Byte>, n: int, k: nat, rest: seq<Byte>, post: seq<Byte>)
    requires PrintNum(n, k).ok
    ensures |PrintNum(n, k).bytes| == k
    ensures ParseNum(pre + (PrintNum(n, k).bytes + rest) + post, |pre|, k) == Parsed(Some(n), |pre| + k)
  {
    PrintedNumReads(pre, n, k, rest + post);
    Regroup(pre, PrintNum(n, k).bytes, rest, post);
  }

  lemma {:induction false} PrintedReadsList(schema: Schema, elem: FieldType, v: Value, pre: seq<Byte>, post: seq<Byte>, depth: nat)
    requires PrintField(schema, List(elem), v).ok && depth >= Depth(schema, List(elem), v)
    ensures Reads(schema, List(elem), PrintField(schema, List(elem), v).bytes, pre, post, depth)
    decreases v, 0
  {
    var n, ts := PrintNum(|v.items|, 4), Repeat(elem, |v.items|);
    var all := PrintAll(schema, ts, v.items);
    var buf := pre + (n.bytes + all.bytes) + post;
    NumberInFront(pre, |v.items|, 4, all.bytes, post);
    var r := ParseAll(schema, ts, buf, |pre| + 4, depth - 1);
    assert r.value.Some? && r.next == |pre| + 4 + |all.bytes| by {
      PrintedReadsAll(schema, ts, v.items, pre + n.bytes, post, depth - 1);
      Regroup(pre, n.bytes, all.bytes, post);
    }
  }

  lemma {:induction false} PrintedReadsOptional(schema: Schema, inner: FieldType, v: Value, pre: seq<Byte>, post: seq<Byte>, depth: nat)
    requires PrintField(schema, Optional(inner), v).ok && depth >= Depth(schema, Optional(inner), v)
    ensures Reads(schema, Optional(inner), PrintField(schema, Optional(inner), v).bytes, pre, post, depth)
    decreases v, 2, Optional(inner), 0
  {
    if v == Nothing {
      PrintedNumReads(pre, 0, 1, post);
    } else {
      var tag, rest := PrintNum(1, 1), PrintField(schema, inner, v);
      var buf := pre + (tag.bytes + rest.bytes) + post;
      NumberInFront(pre, 1, 1, rest.bytes, post);
      var r := ParseField(schema, inner, buf, |pre| + 1, depth - 1);
      assert r.value.Some? && r.next == |pre| + 1 + |rest.bytes| by {
        PrintedReads(schema, inner, v, pre + tag.bytes, post, depth - 1);
        Regroup(pre, tag.bytes, rest.bytes, post);
      }
    }
  }

  lemma {:induction false} PrintedReadsAll(
    schema: Schema, ts: seq<FieldType>, vs: seq<Value>, pre: seq<Byte>, post: seq<Byte>, depth: nat)
    requires |ts| == |vs| && PrintAll(schema, ts, vs).ok && depth >= DepthOfAll(schema, ts, vs)
    ensures var bytes := PrintAll(schema, ts, vs).bytes;
            var r := ParseAll(schema, ts, pre + bytes + post, |pre|, depth);
            r.value.Some? && r.next == |pre| + |bytes|
    decreases vs
  {
    if ts != [] {
      var first, rest := PrintField(schema, ts[0], vs[0]), PrintAll(schema, ts[1..], vs[1..]);
      PrintedReads(schema, ts[0], vs[0], pre, rest.bytes + post, depth);
      PrintedReadsAll(schema, ts[1..], vs[1..], pre + first.bytes, post, depth);
      Regroup(pre, first.bytes, rest.bytes, post);
    }
  }

  lemma {:induction false} PrintedReadsStruct(schema: Schema, v: Value, pre: seq<Byte>, post: seq<Byte>, depth: nat)
    requires v.Object? && PrintStruct(schema, v).ok && depth >= DepthOfStruct(schema, v)
    ensures var bytes := PrintStruct(schema, v).bytes;
            var r := ParseStruct(schema, v.typ, pre + bytes + post, |pre|, depth);
            r.value.Some? && r.next == |pre| + |bytes|
    decreases v, 1
  {
    match schema[v.typ]
    case Struct(fields) => PrintedReadsFields(schema, fields, v, map[], pre, post, depth);
    case Enum(field, values) =>
      var idx := IndexOf(values, v.attrs[field].utf8);
      var f := values[idx];
      var tag, rest := PrintNum(idx, 1), PrintField(schema, f.typ, v.attrs[f.name]);
      PrintedNumReads(pre, idx, 1, rest.bytes + post);
      PrintedReads(schema, f.typ, v.attrs[f.name], pre + tag.bytes, post, depth);
      Regroup(pre, tag.bytes, rest.bytes, post);
  }

  lemma {:induction false} PrintedReadsFields(
    schema: Schema, fields: seq<Field>, v: Value, attrs: map<Name, Value>, pre: seq<Byte>, post: seq<Byte>, depth: nat)
    requires v.Object? && PrintFields(schema, fields, v).ok && depth >= DepthOfFields(schema, fields, v)
    ensures var bytes := PrintFields(schema, fields, v).bytes;
            var r := ParseFields(schema, fields, attrs, pre + bytes + post, |pre|, depth);
            r.value.Some? && r.next == |pre| + |bytes|
    decreases v, 0, |fields|
  {
    if fields != [] {
      var f := fields[0];
      var first, rest := PrintAttr(schema, f, v), PrintFields(schema, fields[1..], v);
      PrintedReads(schema, f.typ, v.attrs[f.name], pre, rest.bytes + post, depth);
      var read := ParseField(schema, f.typ, pre + first.bytes + (rest.bytes + post), |pre|, depth).value.value;
      PrintedReadsFields(schema, fields[1..], v, attrs[f.name := read], pre + first.bytes, post, depth);
      Regroup(pre, first.bytes, rest.bytes, post);
    }
  }

  // ---------------------------------------------------------------------------
  // What is read is well typed
  // ---------------------------------------------------------------------------

  ghost predicate Distinct(fields: seq<Field>) {
    forall i, j :: 0 <= i < j < |fields| ==> fields[i].name != fields[j].name
  }

  /** No attribute of a class has two meanings. */
  ghost predicate Unambiguous(schema: Schema) {
    forall c :: c in schema ==>
      match schema[c]
      case Struct(fields) => Distinct(fields)
      case Enum(field, values) => Distinct(values) && field !in Names(values)
  }

  lemma {:induction false} ParsedWellTyped(schema: Schema, t: FieldType, buf: seq<Byte>, at: nat, depth: nat)
    requires Unambiguous(schema) && ParseField(schema, t, buf, at, depth).value.Some?
    ensures WellTyped(schema, t, ParseField(schema, t, buf, at, depth).value.value)
    decreases depth, 0
  {
    match t
    case Tuple(ts) =>
      if ts != [] {
        ParsedAllWellTyped(schema, ts, buf, at, depth - 1);
      }
    case Bool =>
    case UInt(bits) => NumberBound(ReadBytes(buf, at, bits / 8).value.value);
    case Str => NumberBound(ReadBytes(buf, at, 4).value.value);
    case FixedBytes(_) =>
    case List(elem) =>
      var n := ParseNum(buf, at, 4);
      NumberBound(ReadBytes(buf, at, 4).value.value);
      ParsedAllWellTyped(schema, Repeat(elem, n.value.value), buf, n.next, depth - 1);
    case Optional(inner) =>
      var tag := ParseNum(buf, at, 1);
      if tag.value.value != 0 {
        ParsedWellTyped(schema, inner, buf, tag.next, depth - 1);
      }
    case Class(name) => ParsedStructWellTyped(schema, name, buf, at, depth - 1);
  }

  lemma {:induction false} ParsedAllWellTyped(schema: Schema, ts: seq<FieldType>, buf: seq<Byte>, at: nat, depth: nat)
    requires Unambiguous(schema) && ParseAll(schema, ts, buf, at, depth).value.Some?
    ensures var vs := ParseAll(schema, ts, buf, at, depth).value.value;
            forall i :: 0 <= i < |ts| ==> WellTyped(schema, ts[i], vs[i])
    decreases depth, |ts| + 1
  {
    if ts != [] {
      var first := ParseField(schema, ts[0], buf, at, depth);
      ParsedWellTyped(schema, ts[0], buf, at, depth);
      ParsedAllWellTyped(schema, ts[1..], buf, first.next, depth);
      var vs, rest := ParseAll(schema, ts, buf, at, depth).value.value, ParseAll(schema, ts[1..], buf, first.next, depth).value.value;
      forall i | 0 <= i < |ts| ensures WellTyped(schema, ts[i], vs[i]) {
        assert i > 0 ==> ts[i] == ts[1..][i - 1] && vs[i] == rest[i - 1];
      }
    }
  }

  lemma {:induction false} ParsedStructWellTyped(schema: Schema, name: Name, buf: seq<Byte>, at: nat, depth: nat)
    requires Unambiguous(schema) && ParseStruct(schema, name, buf, at, depth).value.Some?
    ensures var v := ParseStruct(schema, name, buf, at, depth).value.value;
            v.Object? && v.typ == name && WellFormed(schema, v)
    decreases depth, if name in schema && schema[name].Struct? then |schema[name].fields| + 2 else 1
  {
    var v := ParseStruct(schema, name, buf, at, depth).value.value;
    match schema[name]
    case Struct(fields) =>
      ParsedFieldsWellTyped(schema, fields, map[], buf, at, depth);
    case Enum(field, values) =>
      var ord := ParseNum(buf, at, 1);
      var f := values[ord.value.value];
      NumberBound(ReadBytes(buf, at, 1).value.value);
      assert Pow256(1) == 256;
      ParsedWellTyped(schema, f.typ, buf, ord.next, depth);
      assert f.name in Names(values);
      assert IndexOf(values, f.name) == ord.value.value;
      assert HasAttr(schema, f, v);
  }

  lemma {:induction false} ParsedFieldsWellTyped(
    schema: Schema, fields: seq<Field>, attrs: map<Name, Value>, buf: seq<Byte>, at: nat, depth: nat)
    requires Unambiguous(schema) && Distinct(fields) && attrs.Keys !! Names(fields)
    requires ParseFields(schema, fields, attrs, buf, at, depth).value.Some?
    ensures var m := ParseFields(schema, fields, attrs, buf, at, depth).value.value;
            && m.Keys == attrs.Keys + Names(fields)
            && (forall k :: k in attrs ==> m[k] == attrs[k])
            && (forall i :: 0 <= i < |fields| ==> fields[i].name in m && WellTyped(schema, fields[i].typ, m[fields[i].name]))
    decreases depth, |fields| + 1
  {
    if fields != [] {
      var f := fields[0];
      var r := ParseField(schema, f.typ, buf, at, depth);
      ParsedWellTyped(schema, f.typ, buf, at, depth);
      NamesOf(fields);
      var rest := fields[1..];
      forall i | 0 <= i < |rest| ensures rest[i].name != f.name {
        assert rest[i] == fields[i + 1];
      }
      ParsedFieldsWellTyped(schema, rest, attrs[f.name := r.value.value], buf, r.next, depth);
      forall i | 0 < i < |fields| ensures fields[i] == rest[i - 1] {
      }
    }
  }

  /** Whatever bytes a value was read from, printing it and reading that back gives the same value. */
  lemma {:induction false} ParsedReadsBack(
    schema: Schema, t: FieldType, buf: seq<Byte>, at: nat, depth: nat, pre: seq<Byte>, post: seq<Byte>, depth': nat)
    requires Unambiguous(schema) && ParseField(schema, t, buf, at, depth).value.Some?
    requires depth' >= Depth(schema, t, ParseField(schema, t, buf, at, depth).value.value)
    ensures ReadsBack(schema, t, ParseField(schema, t, buf, at, depth).value.value, pre, post, depth')
  {
    ParsedWellTyped(schema, t, buf, at, depth);
    RoundTrip(schema, t, ParseField(schema, t, buf, at, depth).value.value, pre, post, depth');
  }

  // ---------------------------------------------------------------------------
  // The serializer
  // ---------------------------------------------------------------------------

  function Prefixed(done: seq<Value>, rest: Parsed<seq<Value>>): Parsed<seq<Value>> {
    if rest.value == None then rest else Parsed(Some(done + rest.value.value), rest.next)
  }

  lemma PrefixedStep(done: seq<Value>, v: Value, rest: Parsed<seq<Value>>)
    ensures Prefixed(done, Prefixed([v], rest)) == Prefixed(done + [v], rest)
  {
    if rest.value.Some? {
      assert done + ([v] + rest.value.value) == (done + [v]) + rest.value.value;
    }
  }

  lemma PrefixedNothing(rest: Parsed<seq<Value>>)
    ensures Prefixed([], rest) == rest
  {
    if rest.value.Some? {
      assert [] + rest.value.value == rest.value.value;
    }
  }

  lemma ThenStep(done: seq<Byte>, first: Printed, rest: Printed)
    ensures Then(Printed(true, done), Then(first, rest)) == Then(Then(Printed(true, done), first), rest)
  {
    assert done + (first.bytes + rest.bytes) == (done + first.bytes) + rest.bytes;
  }

  lemma {:induction false} PrintAllStep(schema: Schema, ts: seq<FieldType>, vs: seq<Value>, i: nat, done: seq<Byte>)
    requires i < |ts| == |vs|
    ensures Then(Printed(true, done), PrintAll(schema, ts[i..], vs[i..]))
         == Then(Then(Printed(true, done), PrintField(schema, ts[i], vs[i])), PrintAll(schema, ts[i + 1..], vs[i + 1..]))
  {
    assert ts[i..][1..] == ts[i + 1..] && vs[i..][1..] == vs[i + 1..];
    ThenStep(done, PrintField(schema, ts[i], vs[i]), PrintAll(schema, ts[i + 1..], vs[i + 1..]));
  }

  lemma {:induction false} PrintFieldsStep(schema: Schema, fields: seq<Field>, v: Value, i: nat, done: seq<Byte>)
    requires v.Object? && i < |fields|
    ensures Then(Printed(true, done), PrintFields(schema, fields[i..], v))
         == Then(Then(Printed(true, done), PrintAttr(schema, fields[i], v)), PrintFields(schema, fields[i + 1..], v))
  {
    assert fields[i..][1..] == fields[i + 1..];
    ThenStep(done, PrintAttr(schema, fields[i], v), PrintFields(schema, fields[i + 1..], v));
  }

  class BinarySerializer {
    const schema: Schema
    var buffer: seq<Byte>
    var offset: nat

    constructor (schema: Schema)
      ensures this.schema == schema && buffer == []
    {
      this.schema := schema;
      buffer := [];
    }

    method Read(n: nat) returns (bytes: Option<seq<Byte>>)
      modifies this`offset
      ensures Parsed(bytes, offset) == ReadBytes(buffer, old(offset), n)
    {
      if n + offset > |buffer| {
        return None;
      }
      bytes := Some(buffer[offset..offset + n]);
      offset := offset + n;
    }

    method SerializeNum(value: int, n: nat) returns (ok: bool)
      modifies this`buffer
      ensures ok == PrintNum(value, n).ok && buffer == old(buffer) + PrintNum(value, n).bytes
    {
      if value < 0 {
        return false;
      }
      var rest: nat := value;
      for i := 0 to n
        invariant buffer + LittleEndian(rest, n - i) == old(buffer) + LittleEndian(value, n)
        invariant Leftover(rest, n - i) == Leftover(value, n)
      {
        assert buffer + LittleEndian(rest, n - i) == buffer + [rest % 256] + LittleEndian(rest / 256, n - i - 1);
        buffer := buffer + [rest % 256];
        rest := rest / 256;
      }
      ok := rest == 0;
    }

    method DeserializeNum(n: nat) returns (value: Option<nat>)
      modifies this`offset
      ensures Parsed(value, offset) == ParseNum(buffer, old(offset), n)
    {
      var bytes := Read(n);
      if bytes == None {
        return None;
      }
      var total: nat := 0;
      for i := |bytes.value| downto 0
        invariant total == FromLittleEndian(bytes.value[i..])
      {
        assert bytes.value[i..][1..] == bytes.value[i + 1..];
        total := total * 256 + bytes.value[i];
      }
      value := Some(total);
    }

    method SerializeField(value: Value, t: FieldType) returns (ok: bool)
      modifies this`buffer
      ensures ok == PrintField(schema, t, value).ok && buffer == old(buffer) + PrintField(schema, t, value).bytes
      decreases value, 2, t
    {
      match t
      case Tuple(ts) =>
        if ts == [] {
          ok := true;
        } else if (value.TupleOf? || value.ListOf?) && |value.items| == |ts| {
          ok := SerializeAll(value.items, ts);
        } else {
          ok := false;
        }
      case List(elem) =>
        if value.TupleOf? || value.ListOf? {
          ok := SerializeNum(|value.items|, 4);
          if ok {
            ok := SerializeAll(value.items, Repeat(elem, |value.items|));
          }
        } else {
          ok := false;
        }
      case Optional(inner) =>
        if value == Nothing {
          ok := SerializeNum(0, 1);
        } else {
          ok := SerializeNum(1, 1);
          if ok {
            ok := SerializeField(value, inner);
          }
        }
      case Class(name) =>
        if value.Object? && value.typ == name {
          ok := SerializeStruct(value);
        } else {
          ok := false;
        }
      case _ =>
        ok := SerializeLeaf(value, t);
    }

    method SerializeLeaf(value: Value, t: FieldType) returns (ok: bool)
      requires t.Bool? || t.UInt? || t.Str? || t.FixedBytes?
      modifies this`buffer
      ensures ok == PrintField(schema, t, value).ok && buffer == old(buffer) + PrintField(schema, t, value).bytes
    {
      ok := false;
      match t
      case Bool =>
        if value.Boolean? {
          ok := SerializeNum(if value.b then 1 else 0, 1);
        }
      case UInt(bits) =>
        if value.Number? {
          ok := SerializeNum(value.n, bits / 8);
        } else if value.Boolean? {
          ok := SerializeNum(if value.b then 1 else 0, bits / 8);
        }
      case Str =>
        if value.Text? && IsUtf8(value.utf8) {
          ok := SerializeNum(|value.utf8|, 4);
          if ok {
            buffer := buffer + value.utf8;
          }
        }
      case FixedBytes(length) =>
        if value.Bytes? && |value.bytes| == length {
          ok := true;
          buffer := buffer + value.bytes;
        }
    }

    method SerializeAll(vs: seq<Value>, ts: seq<FieldType>) returns (ok: bool)
      requires |vs| == |ts|
      modifies this`buffer
      ensures ok == PrintAll(schema, ts, vs).ok && buffer == old(buffer) + PrintAll(schema, ts, vs).bytes
      decreases vs
    {
      for i := 0 to |vs|
        invariant Then(Printed(true, buffer), PrintAll(schema, ts[i..], vs[i..]))
               == Then(Printed(true, old(buffer)), PrintAll(schema, ts, vs))
      {
        PrintAllStep(schema, ts, vs, i, buffer);
        ok := SerializeField(vs[i], ts[i]);
        if !ok {
          return;
        }
      }
      ok := true;
    }

    method SerializeStruct(obj: Value) returns (ok: bool)
      requires obj.Object?
      modifies this`buffer
      ensures ok == PrintStruct(schema, obj).ok && buffer == old(buffer) + PrintStruct(schema, obj).bytes
      decreases obj, 1
    {
      if obj.typ !in schema {
        return false;
      }
      match schema[obj.typ]
      case Struct(fields) =>
        ok := SerializeFields(obj, fields);
      case Enum(field, values) =>
        if field !in obj.attrs || !obj.attrs[field].Text? {
          return false;
        }
        var name := obj.attrs[field].utf8;
        var idx := 0;
        while idx < |values| && values[idx].name != name
          invariant 0 <= idx <= |values| && forall j :: 0 <= j < idx ==> values[j].name != name
        {
          idx := idx + 1;
        }
        if idx == |values| {
          return false;
        }
        ok := SerializeNum(idx, 1);
        if ok {
          ok := SerializeAttr(obj, values[idx]);
        }
    }

    method SerializeAttr(obj: Value, f: Field) returns (ok: bool)
      requires obj.Object?
      modifies this`buffer
      ensures ok == PrintAttr(schema, f, obj).ok && buffer == old(buffer) + PrintAttr(schema, f, obj).bytes
      decreases obj, 0, 0
    {
      if f.name in obj.attrs {
        ok := SerializeField(obj.attrs[f.name], f.typ);
      } else {
        ok := false;
      }
    }

    method SerializeFields(obj: Value, fields: seq<Field>) returns (ok: bool)
      requires obj.Object?
      modifies this`buffer
      ensures ok == PrintFields(schema, fields, obj).ok && buffer == old(buffer) + PrintFields(schema, fields, obj).bytes
      decreases obj, 0, 1
    {
      for i := 0 to |fields|
        invariant Then(Printed(true, buffer), PrintFields(schema, fields[i..], obj))
               == Then(Printed(true, old(buffer)), PrintFields(schema, fields, obj))
      {
        PrintFieldsStep(schema, fields, obj, i, buffer);
        ok := SerializeAttr(obj, fields[i]);
        if !ok {
          return;
        }
      }
      ok := true;
    }

    method DeserializeField(t: FieldType, depth: nat) returns (value: Option<Value>)
      modifies this`offset
      ensures Parsed(value, offset) == ParseField(schema, t, buffer, old(offset), depth)
      decreases depth, 0
    {
      if depth == 0 {
        return None;
      }
      match t
      case Tuple(ts) =>
        if ts == [] {
          value := Some(Nothing);
        } else {
          var items := DeserializeAll(ts, depth - 1);
          value := if items == None then None else Some(TupleOf(items.value));
        }
      case Bool =>
        var n := DeserializeNum(1);
        value := if n == None || n.value > 1 then None else Some(Boolean(n.value == 1));
      case UInt(bits) =>
        var n := DeserializeNum(bits / 8);
        value := if n == None then None else Some(Number(n.value));
      case Str =>
        var n := DeserializeNum(4);
        if n == None {
          return None;
        }
        var bytes := Read(n.value);
        value := if bytes == None || !IsUtf8(bytes.value) then None else Some(Text(bytes.value));
      case FixedBytes(length) =>
        var bytes := Read(length);
        value := if bytes == None then None else Some(Bytes(bytes.value));
      case List(elem) =>
        var n := DeserializeNum(4);
        if n == None {
          return None;
        }
        var items := DeserializeAll(Repeat(elem, n.value), depth - 1);
        value := if items == None then None else Some(ListOf(items.value));
      case Optional(inner) =>
        var tag := DeserializeNum(1);
        if tag == None {
          return None;
        }
        if tag.value == 0 {
          value := Some(Nothing);
        } else {
          value := DeserializeField(inner, depth - 1);
        }
      case Class(name) =>
        value := DeserializeStruct(name, depth - 1);
    }

    method DeserializeAll(ts: seq<FieldType>, depth: nat) returns (items: Option<seq<Value>>)
      modifies this`offset
      ensures Parsed(items, offset) == ParseAll(schema, ts, buffer, old(offset), depth)
      decreases depth, 1
    {
      var done: seq<Value> := [];
      assert ts[0..] == ts;
      PrefixedNothing(ParseAll(schema, ts, buffer, offset, depth));
      for i := 0 to |ts|
        invariant ParseAll(schema, ts, buffer, old(offset), depth)
               == Prefixed(done, ParseAll(schema, ts[i..], buffer, offset, depth))
      {
        assert ts[i..][1..] == ts[i + 1..];
        var v := DeserializeField(ts[i], depth);
        if v == None {
          return None;
        }
        PrefixedStep(done, v.value, ParseAll(schema, ts[i + 1..], buffer, offset, depth));
        done := done + [v.value];
      }
      assert done + [] == done;
      items := Some(done);
    }

    method DeserializeStruct(name: Name, depth: nat) returns (value: Option<Value>)
      modifies this`offset
      ensures Parsed(value, offset) == ParseStruct(schema, name, buffer, old(offset), depth)
      decreases depth, 2
    {
      if name !in schema {
        return None;
      }
      match schema[name]
      case Struct(fields) =>
        var attrs := DeserializeFields(fields, depth);
        value := if attrs == None then None else Some(Object(name, attrs.value));
      case Enum(field, values) =>
        var ord := DeserializeNum(1);
        if ord == None || ord.value >= |values| {
          return None;
        }
        var f := values[ord.value];
        var payload := DeserializeField(f.typ, depth);
        value := if payload == None then None
                 else Some(Object(name, map[field := Text(f.name)][f.name := payload.value]));
    }

    method DeserializeFields(fields: seq<Field>, depth: nat) returns (attrs: Option<map<Name, Value>>)
      modifies this`offset
      ensures Parsed(attrs, offset) == ParseFields(schema, fields, map[], buffer, old(offset), depth)
      decreases depth, 1
    {
      var done: map<Name, Value> := map[];
      for i := 0 to |fields|
        invariant ParseFields(schema, fields, map[], buffer, old(offset), depth)
               == ParseFields(schema, fields[i..], done, buffer, offset, depth)
      {
        assert fields[i..][1..] == fields[i + 1..];
        var v := DeserializeField(fields[i].typ, depth);
        if v == None {
          return None;
        }
        done := done[fields[i].name := v.value];
      }
      attrs := Some(done);
    }

    method Serialize(obj: Value) returns (bytes: Option<seq<Byte>>)
      requires obj.Object?
      modifies this`buffer
      ensures buffer == old(buffer) + PrintStruct(schema, obj).bytes
      ensures bytes == if PrintStruct(schema, obj).ok then Some(buffer) else None
    {
      var ok := SerializeStruct(obj);
      bytes := if ok then Some(buffer) else None;
    }

    method Deserialize(bytes: seq<Byte>, t: FieldType, depth: nat) returns (value: Option<Value>)
      modifies this
      ensures var r := ParseField(schema, t, bytes, 0, depth);
              && buffer == bytes && offset == r.next
              && value == if r.next == |bytes| then r.value else None
    {
      buffer := bytes;
      offset := 0;
      value := DeserializeField(t, depth);
      if offset != |bytes| {
        value := None;
      }
    }
  }
}
