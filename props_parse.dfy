/** Reading an attribute string back into its (name, value) pairs: the
    inverse of the attribute serialisation, for attributes whose names hold
    no `=` and whose values hold no `"`. It shows that the serialisation
    loses nothing, in particular not the insertion order. */
module PropsParse {
  import opened Wrappers
  import opened HtmlNodes

  /** The text before the first `c` in `s` and the text after it, or `None`
      when `s` holds no `c`. */
  function SplitAtFirst(s: string, c: char): (r: Option<(string, string)>)
    ensures r.Some? ==> s == r.value.0 + [c] + r.value.1 && c !in r.value.0
    ensures r.None? ==> c !in s
  {
    if s == [] then None
    else if s[0] == c then Some(([], s[1..]))
    else
      match SplitAtFirst(s[1..], c)
      case None => None
      case Some(parts) => Some(([s[0]] + parts.0, parts.1))
  }

  /** Splitting `a + [c] + b` at its first `c` gives back `a` and `b` when
      `a` holds no `c`. */
  lemma {:induction false} SplitAtFirstOf(a: string, c: char, b: string)
    requires c !in a
    ensures SplitAtFirst(a + [c] + b, c) == Some((a, b))
  {
    if a == [] {
      assert a + [c] + b == [c] + b;
    } else {
      assert (a + [c] + b)[1..] == a[1..] + [c] + b;
      SplitAtFirstOf(a[1..], c, b);
      assert [a[0]] + a[1..] == a;
    }
  }

  /** How one serialised attribute followed by `tail` falls apart: a space,
      the name, `=`, and the rest, which is a quote, the value, a quote and
      `tail`. */
  lemma AttrParts(name: string, value: string, tail: string)
    ensures var s := Attr((name, value)) + tail;
      && s[0] == ' '
      && s[1..] == name + ['='] + (['"'] + value + ['"'] + tail)
  {
    var s := Attr((name, value)) + tail;
    assert s == [' '] + (name + ['='] + (['"'] + value + ['"'] + tail));
  }

  /** The converse of `AttrParts`: a string that falls apart that way is
      one serialised attribute followed by `tail`. */
  lemma Reassemble(s: string, name: string, rest: string, value: string, tail: string)
    requires s != [] && s[0] == ' ' && s[1..] == name + ['='] + rest
    requires rest != [] && rest[0] == '"' && rest[1..] == value + ['"'] + tail
    ensures s == Attr((name, value)) + tail
  {
    AttrParts(name, value, tail);
    assert rest == [rest[0]] + rest[1..];
    assert s == [s[0]] + s[1..];
  }

  /** Parses a sequence of ` name="value"` attributes; `None` when `s` is
      not such a sequence. */
  function ParseProps(s: string): Option<Props>
    decreases |s|
  {
    if s == [] then Some([])
    else if s[0] != ' ' then None
    else
      match SplitAtFirst(s[1..], '=')
      case None => None
      case Some(nameRest) =>
        var rest := nameRest.1;
        if rest == [] || rest[0] != '"' then None
        else
          match SplitAtFirst(rest[1..], '"')
          case None => None
          case Some(valueTail) =>
            match ParseProps(valueTail.1)
            case None => None
            case Some(more) => Some([(nameRest.0, valueTail.0)] + more)
  }

  /** The parser accepts only serialised attributes: whatever it returns
      serialises back to its input. */
  lemma {:induction false} ParsePropsSound(s: string)
    requires ParseProps(s).Some?
    ensures PropsToHtml(ParseProps(s).value) == s
    decreases |s|
  {
    if s != [] {
      var nameRest := SplitAtFirst(s[1..], '=').value;
      var (name, rest) := nameRest;
      var valueTail := SplitAtFirst(rest[1..], '"').value;
      var (value, tail) := valueTail;
      ParsePropsSound(tail);
      var more := ParseProps(tail).value;
      assert ParseProps(s).value == [(name, value)] + more;
      assert ([(name, value)] + more)[1..] == more;
      Reassemble(s, name, rest, value, tail);
    }
  }

  /** Attributes that the serialised form delimits unambiguously: no name
      holds `=` and no value holds `"`. */
  predicate Parsable(props: Props) {
    forall i :: 0 <= i < |props| ==> '=' !in props[i].0 && '"' !in props[i].1
  }

  /** Parsing the serialised attributes gives them back, in order. */
  lemma {:induction false} ParsePropsToHtml(props: Props)
    requires Parsable(props)
    ensures ParseProps(PropsToHtml(props)) == Some(props)
  {
    if props != [] {
      var (name, value) := props[0];
      var tail := PropsToHtml(props[1..]);
      assert '=' !in name && '"' !in value;
      AttrParts(name, value, tail);
      var rest := ['"'] + value + ['"'] + tail;
      SplitAtFirstOf(name, '=', rest);
      assert rest[1..] == value + ['"'] + tail;
      SplitAtFirstOf(value, '"', tail);
      assert Parsable(props[1..]) by {
        forall i | 0 <= i < |props[1..]|
          ensures '=' !in props[1..][i].0 && '"' !in props[1..][i].1
        {
          assert props[1..][i] == props[i + 1];
        }
      }
      ParsePropsToHtml(props[1..]);
      assert [(name, value)] + props[1..] == props;
    }
  }

  /** Parsable attribute lists with the same serialisation are the same
      list: the serialisation is injective, so two attribute lists that
      differ only in insertion order serialise differently. */
  lemma PropsToHtmlInjective(p: Props, q: Props)
    requires Parsable(p) && Parsable(q)
    requires PropsToHtml(p) == PropsToHtml(q)
    ensures p == q
  {
    ParsePropsToHtml(p);
    ParsePropsToHtml(q);
  }
}
