/**
 `event_to_str` of the selector demo: the names of the selector event bits
 set in a mask, in the order of its name table, joined with `|`.

 Python's `&` on integers acts on the infinite two's-complement form, so a
 power-of-two key `k` meets `mask` exactly when `(mask / k) % 2 == 1` with
 floor division, which is Dafny's division for a positive divisor.
 */
module EventText {

  const EVENT_READ: int := 1
  const EVENT_WRITE: int := 2

  const READ_NAME: string := "EVENT_READ"
  const WRITE_NAME: string := "EVENT_WRITE"

  const SEP: char := '|'

  /** `key & mask` is non-zero, for a key that is a single bit. */
  predicate Selected(key: int, mask: int)
    requires key == EVENT_READ || key == EVENT_WRITE
  {
    (mask / key) % 2 == 1
  }

  /** The names appended to `bits`, walking the table in its order (READ, then WRITE). */
  function Names(mask: int): (r: seq<string>)
    ensures READ_NAME in r <==> Selected(EVENT_READ, mask)
    ensures WRITE_NAME in r <==> Selected(EVENT_WRITE, mask)
    ensures forall i :: 0 <= i < |r| ==> r[i] == READ_NAME || r[i] == WRITE_NAME
  {
    (if Selected(EVENT_READ, mask) then [READ_NAME] else [])
    + (if Selected(EVENT_WRITE, mask) then [WRITE_NAME] else [])
  }

  /** `sep.join(parts)`. */
  function Join(parts: seq<string>): string
  {
    if |parts| == 0 then ""
    else if |parts| == 1 then parts[0]
    else parts[0] + [SEP] + Join(parts[1..])
  }

  /** `s.split(sep)`: the text between separators; never empty, `""` splits to `[""]`. */
  function Fields(s: string): (r: seq<string>)
    ensures |r| > 0
  {
    if s == [] then [""]
    else if s[0] == SEP then [""] + Fields(s[1..])
    else
      var f := Fields(s[1..]);
      [[s[0]] + f[0]] + f[1..]
  }

  /** `event_to_str`. */
  function EventToStr(mask: int): (r: string)
    ensures r == "" <==> !Selected(EVENT_READ, mask) && !Selected(EVENT_WRITE, mask)
  {
    Join(Names(mask))
  }

  predicate NoSep(p: string) {
    forall i :: 0 <= i < |p| ==> p[i] != SEP
  }

  /** Text with no separator in front of more text stays glued to the first field. */
  lemma {:induction false} FieldsPrefix(p: string, rest: string)
    requires NoSep(p)
    ensures Fields(p + rest) == [p + Fields(rest)[0]] + Fields(rest)[1..]
    decreases |p|
  {
    if p == [] {
      assert p + rest == rest;
      assert p + Fields(rest)[0] == Fields(rest)[0];
      assert Fields(rest) == [Fields(rest)[0]] + Fields(rest)[1..];
    } else {
      assert (p + rest)[1..] == p[1..] + rest;
      FieldsPrefix(p[1..], rest);
      assert [p[0]] + (p[1..] + Fields(rest)[0]) == p + Fields(rest)[0];
    }
  }

  /** Splitting undoes joining, for a non-empty list of parts free of the separator. */
  lemma {:induction false} FieldsJoin(parts: seq<string>)
    requires |parts| > 0
    requires forall i :: 0 <= i < |parts| ==> NoSep(parts[i])
    ensures Fields(Join(parts)) == parts
    decreases |parts|
  {
    if |parts| == 1 {
      FieldsPrefix(parts[0], "");
      assert parts[0] + "" == parts[0];
    } else {
      var tail := Join(parts[1..]);
      assert parts[0] + [SEP] + tail == parts[0] + ([SEP] + tail);
      FieldsPrefix(parts[0], [SEP] + tail);
      assert ([SEP] + tail)[1..] == tail;
      FieldsJoin(parts[1..]);
      assert parts[0] + "" == parts[0];
      assert parts == [parts[0]] + parts[1..];
    }
  }

  /** A non-empty rendering splits back into exactly the names of the bits that are set. */
  lemma EventToStrFields(mask: int)
    requires Selected(EVENT_READ, mask) || Selected(EVENT_WRITE, mask)
    ensures Fields(EventToStr(mask)) == Names(mask)
  {
    FieldsJoin(Names(mask));
  }

  /** A name appears in the rendering exactly when its bit is set. */
  lemma NameShownIffSelected(mask: int)
    ensures READ_NAME in Fields(EventToStr(mask)) <==> Selected(EVENT_READ, mask)
    ensures WRITE_NAME in Fields(EventToStr(mask)) <==> Selected(EVENT_WRITE, mask)
  {
    if Selected(EVENT_READ, mask) || Selected(EVENT_WRITE, mask) {
      EventToStrFields(mask);
    } else {
      assert Fields(EventToStr(mask)) == [""];
    }
  }

  /** No name is listed twice, and READ comes before WRITE when both are set. */
  lemma NamesDistinctInOrder(mask: int)
    ensures forall i, j :: 0 <= i < j < |Names(mask)| ==> Names(mask)[i] != Names(mask)[j]
    ensures Selected(EVENT_READ, mask) && Selected(EVENT_WRITE, mask) ==> Names(mask) == [READ_NAME, WRITE_NAME]
  {
  }

  /** The rendering neither starts nor ends with the separator. */
  lemma NoOuterSeparator(mask: int)
    ensures var r := EventToStr(mask); r == "" || (r[0] != SEP && r[|r| - 1] != SEP)
  {
    var names := Names(mask);
    if |names| == 2 {
      assert Join(names) == READ_NAME + [SEP] + WRITE_NAME;
    }
  }

  /** Bits above READ and WRITE do not change the rendering. */
  lemma {:induction false} HigherBitsIgnored(mask: int, k: int)
    ensures EventToStr(mask + 4 * k) == EventToStr(mask)
  {
    var q, b := mask / 2, mask % 2;
    assert mask == 2 * q + b;
    assert mask + 4 * k == 2 * (q + 2 * k) + b;
    assert (mask + 4 * k) / 2 == q + 2 * k;
    assert (mask + 4 * k) % 2 == b;
    assert (q + 2 * k) % 2 == q % 2;
  }
}
