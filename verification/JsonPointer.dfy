/** JSON pointers as RFC 6901 (sections 3 and 4) defines them, the way internal/parity/canonical.go evaluates them
    over a parsed document. */
module JsonPointer {
  import opened Options
  import opened Decimals

  datatype Json =
    | Null
    | Bool(flag: bool)
    | Number(text: string)
    | Str(text: string)
    | Arr(items: seq<Json>)
    | Obj(fields: map<string, Json>)

  datatype PointerError = NoLeadingSlash | BadEscape | KeyNotFound | BadIndex | IndexOutOfRange | NotAContainer

  type Resolved = Result<Json, PointerError>

  // ----- tokens -----

  /** strings.Split(s, "/") */
  function Split(s: string): (r: seq<string>)
    ensures |r| >= 1
  {
    if s == "" then [""]
    else if s[0] == '/' then [""] + Split(s[1..])
    else var rest := Split(s[1..]); [[s[0]] + rest[0]] + rest[1..]
  }

  lemma {:induction false} SplitAtSlash(a: string, b: string)
    ensures Split(a + "/" + b) == Split(a) + Split(b)
  {
    if a == "" {
      assert a + "/" + b == "/" + b;
      assert ("/" + b)[1..] == b;
    } else {
      assert (a + "/" + b)[0] == a[0] && (a + "/" + b)[1..] == a[1..] + "/" + b;
      SplitAtSlash(a[1..], b);
      if a[0] != '/' {
        var rest := Split(a[1..]);
        assert (rest + Split(b))[0] == rest[0] && (rest + Split(b))[1..] == rest[1..] + Split(b);
      }
    }
  }

  /** A text without a slash is one token. */
  lemma {:induction false} SplitOne(s: string)
    requires '/' !in s
    ensures Split(s) == [s]
  {
    if s != "" {
      assert s[0] in s && forall c | c in s[1..] :: c in s;
      SplitOne(s[1..]);
      assert [s[0]] + s[1..] == s;
    }
  }

  predicate WellFormed(p: string) {
    p == "" || p[0] == '/'
  }

  function Tokens(p: string): seq<string>
    requires WellFormed(p)
  {
    if p == "" then [] else Split(p[1..])
  }

  lemma TokensAppend(p: string, q: string)
    requires WellFormed(p) && WellFormed(q)
    ensures WellFormed(p + q) && Tokens(p + q) == Tokens(p) + Tokens(q)
  {
    if p == "" {
      assert p + q == q;
    } else if q == "" {
      assert p + q == p;
      assert Tokens(p) + [] == Tokens(p);
    } else {
      assert (p + q)[1..] == p[1..] + "/" + q[1..];
      SplitAtSlash(p[1..], q[1..]);
    }
  }

  // ----- escaping -----

  function Unescape(t: string): Result<string, PointerError> {
    if t == "" then Ok("")
    else if t[0] != '~' then
      var rest := Unescape(t[1..]);
      if rest.Err? then rest else Ok([t[0]] + rest.value)
    else if |t| == 1 || (t[1] != '0' && t[1] != '1') then Err(BadEscape)
    else
      var rest := Unescape(t[2..]);
      if rest.Err? then rest else Ok([if t[1] == '0' then '~' else '/'] + rest.value)
  }

  function Escape(s: string): string {
    if s == "" then ""
    else (if s[0] == '~' then "~0" else if s[0] == '/' then "~1" else [s[0]]) + Escape(s[1..])
  }

  /** Unescaping inverts escaping, and an escaped text has no slash in it. */
  lemma {:induction false} UnescapeEscape(s: string)
    ensures Unescape(Escape(s)) == Ok(s) && '/' !in Escape(s)
  {
    if s != "" {
      UnescapeEscape(s[1..]);
      var head := if s[0] == '~' then "~0" else if s[0] == '/' then "~1" else [s[0]];
      assert (head + Escape(s[1..]))[|head|..] == Escape(s[1..]);
      assert [s[0]] + s[1..] == s;
    }
  }

  /** And the other way: a token that unescapes is the escape of what it stands for. */
  lemma {:induction false} EscapeUnescape(t: string)
    requires Unescape(t).Ok? && '/' !in t
    ensures Escape(Unescape(t).value) == t
    decreases |t|
  {
    if t != "" {
      var n := if t[0] == '~' then 2 else 1;
      assert forall c | c in t[n..] :: c in t;
      EscapeUnescape(t[n..]);
      var rest := Unescape(t[n..]).value;
      var s := Unescape(t).value;
      assert s[1..] == rest;
      assert t == t[..n] + t[n..];
      assert t[0] in t;
      if n == 2 {
        assert t[..2] == [t[0], t[1]];
      }
    }
  }

  // ----- array indexes -----

  const MAX_INT: nat := 0x8000_0000_0000_0000

  function ParseIndex(token: string): Result<nat, PointerError> {
    if Decimal(token) && (|token| > 1 ==> token[0] != '0') && Value(token) < MAX_INT then Ok(Value(token)) else Err(BadIndex)
  }

  /** The texts accepted as indexes are exactly the printed numbers that fit an int, each its own number. */
  lemma ParseIndexIff(token: string, n: nat)
    ensures ParseIndex(token) == Ok(n) <==> n < MAX_INT && token == Format(n)
  {
    ValueOfFormat(n);
    NoLeadingZero(n);
    if Decimal(token) && (|token| > 1 ==> token[0] != '0') {
      FormatValue(token);
    }
  }

  lemma {:induction false} NoLeadingZero(n: nat)
    ensures |Format(n)| > 1 ==> Format(n)[0] != '0'
    ensures n > 0 ==> Format(n)[0] != '0'
  {
    if n >= 10 {
      NoLeadingZero(n / 10);
    }
  }

  /** "~0" stands for a tilde and "~1" for a slash, read from the left; any other tilde is an error. */
  lemma EscapesAre(c: char, t: string)
    ensures c != '~' ==> Unescape([c] + t) == Prepended([c], Unescape(t))
    ensures Unescape("~0" + t) == Prepended("~", Unescape(t))
    ensures Unescape("~1" + t) == Prepended("/", Unescape(t))
    ensures c != '0' && c != '1' ==> Unescape(['~', c] + t) == Err(BadEscape)
    ensures Unescape("~") == Err(BadEscape)
  {
    assert ([c] + t)[1..] == t && ("~0" + t)[2..] == t && ("~1" + t)[2..] == t;
  }

  /** What is left to unescape goes after what is done. */
  function Prepended(out: string, rest: Result<string, PointerError>): Result<string, PointerError> {
    if rest.Err? then rest else Ok(out + rest.value)
  }

  // ----- evaluation -----

  function Step(current: Json, token: string): Resolved {
    match current
    case Obj(fields) => if token in fields then Ok(fields[token]) else Err(KeyNotFound)
    case Arr(items) =>
      var index := ParseIndex(token);
      if index.Err? then Err(index.error)
      else if index.value >= |items| then Err(IndexOutOfRange)
      else Ok(items[index.value])
    case _ => Err(NotAContainer)
  }

  /** An object has its members, an array its elements under their printed numbers, and nothing else has any. */
  lemma StepAnswers(current: Json, token: string)
    ensures current.Obj? ==> Step(current, token) == if token in current.fields then Ok(current.fields[token]) else Err(KeyNotFound)
    ensures current.Arr? ==> forall n: nat | n < 9_223_372_036_854_775_808 && token == Format(n) ::
              Step(current, token) == if n < |current.items| then Ok(current.items[n]) else Err(IndexOutOfRange)
    ensures current.Arr? && (forall n: nat | n < 9_223_372_036_854_775_808 :: token != Format(n)) ==> Step(current, token) == Err(BadIndex)
    ensures !current.Obj? && !current.Arr? ==> Step(current, token) == Err(NotAContainer)
  {
    forall n: nat
      ensures ParseIndex(token) == Ok(n) <==> n < MAX_INT && token == Format(n)
    {
      ParseIndexIff(token, n);
    }
  }

  function StepRaw(current: Json, raw: string): Resolved {
    var token := Unescape(raw);
    if token.Err? then Err(token.error) else Step(current, token.value)
  }

  function Eval(doc: Json, tokens: seq<string>): Resolved {
    if tokens == [] then Ok(doc)
    else
      var next := StepRaw(doc, tokens[0]);
      if next.Err? then next else Eval(next.value, tokens[1..])
  }

  lemma {:induction false} EvalAppend(doc: Json, a: seq<string>, b: seq<string>)
    ensures Eval(doc, a + b) == if Eval(doc, a).Err? then Eval(doc, a) else Eval(Eval(doc, a).value, b)
    decreases |a|
  {
    if a == [] {
      assert a + b == b;
    } else {
      assert (a + b)[0] == a[0] && (a + b)[1..] == a[1..] + b;
      var next := StepRaw(doc, a[0]);
      if next.Ok? {
        EvalAppend(next.value, a[1..], b);
      }
    }
  }

  function PointerValue(doc: Json, p: string): Resolved {
    if WellFormed(p) then Eval(doc, Tokens(p)) else Err(NoLeadingSlash)
  }

  /** Following p and then q is following p + q; the first thing that goes wrong is the same. */
  lemma Compose(doc: Json, p: string, q: string)
    requires WellFormed(p) && WellFormed(q)
    ensures PointerValue(doc, p + q) ==
            if PointerValue(doc, p).Err? then PointerValue(doc, p) else PointerValue(PointerValue(doc, p).value, q)
  {
    TokensAppend(p, q);
    EvalAppend(doc, Tokens(p), Tokens(q));
  }

  lemma ThenToken(doc: Json, p: string, token: string)
    requires WellFormed(p) && PointerValue(doc, p).Ok? && '/' !in token
    ensures PointerValue(doc, p + "/" + token) == StepRaw(PointerValue(doc, p).value, token)
  {
    OneToken(PointerValue(doc, p).value, token);
    Compose(doc, p, "/" + token);
    assert p + "/" + token == p + ("/" + token);
  }

  /** The pointer of an object member. */
  lemma Member(doc: Json, p: string, key: string)
    requires WellFormed(p) && PointerValue(doc, p).Ok? && PointerValue(doc, p).value.Obj?
    ensures var fields := PointerValue(doc, p).value.fields;
            PointerValue(doc, p + "/" + Escape(key)) == if key in fields then Ok(fields[key]) else Err(KeyNotFound)
  {
    UnescapeEscape(key);
    ThenToken(doc, p, Escape(key));
  }

  /** The pointer of an array element. */
  lemma Element(doc: Json, p: string, i: nat)
    requires WellFormed(p) && PointerValue(doc, p).Ok? && PointerValue(doc, p).value.Arr? && i < MAX_INT
    ensures var items := PointerValue(doc, p).value.items;
            PointerValue(doc, p + "/" + Format(i)) == if i < |items| then Ok(items[i]) else Err(IndexOutOfRange)
  {
    var token := Format(i);
    ParseIndexIff(token, i);
    forall c | c in token
      ensures IsDigit(c)
    {
    }
    PlainText(token);
    ThenToken(doc, p, token);
  }

  /** Text without the two special characters stands for itself. */
  lemma {:induction false} PlainText(s: string)
    requires forall c | c in s :: c != '~' && c != '/'
    ensures Escape(s) == s && Unescape(s) == Ok(s) && '/' !in s
  {
    if s != "" {
      assert s[0] in s && forall c | c in s[1..] :: c in s;
      PlainText(s[1..]);
      assert [s[0]] + s[1..] == s;
    }
  }

  lemma OneToken(doc: Json, token: string)
    requires '/' !in token
    ensures PointerValue(doc, "/" + token) == StepRaw(doc, token)
  {
    SplitOne(token);
    assert ("/" + token)[1..] == token;
    var next := StepRaw(doc, token);
    assert [token][1..] == [];
    if next.Ok? {
      assert Eval(next.value, []) == next;
    }
  }

  // ----- the same, as loops -----

  lemma PrependTwice(out: string, c: char, rest: Result<string, PointerError>)
    ensures Prepended(out, Prepended([c], rest)) == Prepended(out + [c], rest)
  {
    if rest.Ok? {
      assert out + ([c] + rest.value) == (out + [c]) + rest.value;
    }
  }

  lemma OneMore(out: string, t: string)
    requires t != "" && (t[0] == '~' ==> |t| > 1 && (t[1] == '0' || t[1] == '1'))
    ensures Prepended(out, Unescape(t)) ==
            if t[0] != '~' then Prepended(out + [t[0]], Unescape(t[1..]))
            else Prepended(out + [if t[1] == '0' then '~' else '/'], Unescape(t[2..]))
  {
    if t[0] != '~' {
      assert Unescape(t) == Prepended([t[0]], Unescape(t[1..]));
      PrependTwice(out, t[0], Unescape(t[1..]));
    } else {
      var c := if t[1] == '0' then '~' else '/';
      assert Unescape(t) == Prepended([c], Unescape(t[2..]));
      PrependTwice(out, c, Unescape(t[2..]));
    }
  }

  method UnescapeToken(token: string) returns (r: Result<string, PointerError>)
    ensures r == Unescape(token)
  {
    var out: string := "";
    var i := 0;
    assert token[0..] == token;
    assert Unescape(token).Ok? ==> "" + Unescape(token).value == Unescape(token).value;
    while i < |token|
      invariant i <= |token| && Unescape(token) == Prepended(out, Unescape(token[i..]))
    {
      var t := token[i..];
      if token[i] == '~' && (i + 1 >= |token| || (token[i + 1] != '0' && token[i + 1] != '1')) {
        return Err(BadEscape);
      }
      OneMore(out, t);
      if token[i] != '~' {
        assert t[1..] == token[i + 1..];
        out := out + [token[i]];
        i := i + 1;
      } else {
        assert t[2..] == token[i + 2..];
        out := out + [if token[i + 1] == '0' then '~' else '/'];
        i := i + 2;
      }
    }
    assert token[i..] == "" && out + "" == out;
    r := Ok(out);
  }

  method JsonPointerValue(doc: Json, pointer: string) returns (r: Resolved)
    ensures r == PointerValue(doc, pointer)
  {
    if pointer == "" {
      return Ok(doc);
    }
    if pointer[0] != '/' {
      return Err(NoLeadingSlash);
    }
    var tokens := Split(pointer[1..]);
    var current, k := doc, 0;
    while k < |tokens|
      invariant k <= |tokens| && Eval(doc, tokens) == Eval(current, tokens[k..])
    {
      assert tokens[k..][0] == tokens[k] && tokens[k..][1..] == tokens[k + 1..];
      var token := UnescapeToken(tokens[k]);
      if token.Err? {
        return Err(token.error);
      }
      var next := Step(current, token.value);
      if next.Err? {
        return next;
      }
      current := next.value;
      k := k + 1;
    }
    assert tokens[k..] == [];
    r := Ok(current);
  }
}
