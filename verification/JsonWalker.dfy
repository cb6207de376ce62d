/** The check that a request body is one JSON value in which no object repeats a key. */
module JsonWalker {
  import opened Foundations

  /** What the decoder hands out; commas and colons are not tokens, and `Bad` stands for text that is no JSON. */
  datatype Token = OpenObject | CloseObject | OpenArray | CloseArray | Str(text: string) | Scalar | Bad

  datatype Value = Object(members: Members) | Array(elements: Elements) | Text(text: string) | Other

  datatype Members = NoMember | Member(key: string, value: Value, others: Members)

  datatype Elements = NoElement | Element(value: Value, others: Elements)

  // ----- Values as tokens -----

  /** The tokens of `v`, followed by `rest`. */
  function Tokens(v: Value, rest: seq<Token>): seq<Token>
    decreases v
  {
    match v
    case Object(m) => [OpenObject] + MemberTokens(m, [CloseObject] + rest)
    case Array(e) => [OpenArray] + ElementTokens(e, [CloseArray] + rest)
    case Text(s) => [Str(s)] + rest
    case Other => [Scalar] + rest
  }

  function MemberTokens(m: Members, rest: seq<Token>): seq<Token>
    decreases m
  {
    match m
    case NoMember => rest
    case Member(key, value, others) => [Str(key)] + Tokens(value, MemberTokens(others, rest))
  }

  function ElementTokens(e: Elements, rest: seq<Token>): seq<Token>
    decreases e
  {
    match e
    case NoElement => rest
    case Element(value, others) => Tokens(value, ElementTokens(others, rest))
  }

  function Keys(m: Members): seq<string> {
    match m
    case NoMember => []
    case Member(key, _, others) => [key] + Keys(others)
  }

  predicate AllDifferent(keys: seq<string>) {
    forall i, j :: 0 <= i < j < |keys| ==> keys[i] != keys[j]
  }

  /** No object at any depth repeats a key. */
  predicate Unique(v: Value)
    decreases v
  {
    match v
    case Object(m) => AllDifferent(Keys(m)) && UniqueMembers(m)
    case Array(e) => UniqueElements(e)
    case _ => true
  }

  predicate UniqueMembers(m: Members)
    decreases m
  {
    m.Member? ==> Unique(m.value) && UniqueMembers(m.others)
  }

  predicate UniqueElements(e: Elements)
    decreases e
  {
    e.Element? ==> Unique(e.value) && UniqueElements(e.others)
  }

  // ----- The walk as a function of the tokens -----

  /** Another element follows in the object or array being read. */
  predicate More(ts: seq<Token>) {
    ts != [] && ts[0] != CloseObject && ts[0] != CloseArray
  }

  function Expect(ts: seq<Token>, t: Token): (r: Option<seq<Token>>)
    ensures r.Some? ==> |r.value| < |ts|
  {
    if ts != [] && ts[0] == t then Some(ts[1..]) else None
  }

  /** What is left after one value, if the walk succeeds. */
  function Walk(ts: seq<Token>): (r: Option<seq<Token>>)
    ensures r.Some? ==> |r.value| < |ts|
    decreases |ts|, 0
  {
    if ts == [] then None
    else match ts[0]
         case OpenObject => WalkMembers(ts[1..], {})
         case OpenArray => WalkElements(ts[1..])
         case Str(_) | Scalar => Some(ts[1..])
         case CloseObject | CloseArray | Bad => None
  }

  function WalkMembers(ts: seq<Token>, seen: set<string>): (r: Option<seq<Token>>)
    ensures r.Some? ==> |r.value| < |ts|
    decreases |ts|, 1
  {
    if !More(ts) then Expect(ts, CloseObject)
    else if !ts[0].Str? || ts[0].text in seen then None
    else match Walk(ts[1..])
         case None => None
         case Some(after) => WalkMembers(after, seen + {ts[0].text})
  }

  function WalkElements(ts: seq<Token>): (r: Option<seq<Token>>)
    ensures r.Some? ==> |r.value| < |ts|
    decreases |ts|, 1
  {
    if !More(ts) then Expect(ts, CloseArray)
    else match Walk(ts)
         case None => None
         case Some(after) => WalkElements(after)
  }

  // ----- The walk as the program does it -----

  /** A decoder that hands out tokens one by one and stops at the first error. */
  class Decoder {
    var rest: seq<Token>

    constructor (tokens: seq<Token>)
      ensures rest == tokens
    {
      rest := tokens;
    }

    /** Nothing at the end of the input. */
    method Next() returns (t: Option<Token>)
      modifies this
      ensures old(rest) == [] ==> t == None && rest == []
      ensures old(rest) != [] ==>
                && t == Some(old(rest)[0])
                && rest == if t == Some(Bad) then old(rest) else old(rest)[1..]
    {
      if rest == [] {
        return None;
      }
      t := Some(rest[0]);
      if rest[0] != Bad {
        rest := rest[1..];
      }
    }

    method WalkCommerceJSONValue() returns (ok: bool)
      modifies this
      ensures ok == Walk(old(rest)).Some?
      ensures ok ==> Some(rest) == Walk(old(rest))
      decreases |rest|
    {
      var token := Next();
      if token.None? || token.value == Bad {
        return false;
      }
      if token.value.Str? || token.value.Scalar? {
        return true;
      }
      ghost var start := rest;
      if token.value == OpenObject {
        var seen: set<string> := {};
        while More(rest)
          invariant |rest| <= |start|
          invariant WalkMembers(start, {}) == WalkMembers(rest, seen)
          decreases |rest|
        {
          var keyToken := Next();
          if keyToken.value == Bad {
            return false;
          }
          if !keyToken.value.Str? {
            return false;
          }
          var key := keyToken.value.text;
          if key in seen {
            return false;
          }
          seen := seen + {key};
          var walked := WalkCommerceJSONValue();
          if !walked {
            return false;
          }
        }
        var end := Next();
        ok := end == Some(CloseObject);
      } else if token.value == OpenArray {
        while More(rest)
          invariant |rest| <= |start|
          invariant WalkElements(start) == WalkElements(rest)
          decreases |rest|
        {
          var walked := WalkCommerceJSONValue();
          if !walked {
            return false;
          }
        }
        var end := Next();
        ok := end == Some(CloseArray);
      } else {
        ok := false;
      }
    }
  }

  method RejectDuplicateJSONKeys(tokens: seq<Token>) returns (ok: bool)
    ensures ok <==> exists v :: Unique(v) && tokens == Tokens(v, [])
  {
    var decoder := new Decoder(tokens);
    ok := decoder.WalkCommerceJSONValue();
    AcceptsIff(tokens);
    if !ok {
      return false;
    }
    var extra := decoder.Next();
    ok := extra.None?;
  }

  // ----- What the walk accepts -----

  predicate Disjoint(keys: seq<string>, seen: set<string>) {
    forall k :: k in keys ==> k !in seen
  }

  /** On the tokens of any value, whatever follows: success exactly without repeated keys, and nothing more is read. */
  lemma {:induction false} WalkOfValue(v: Value, rest: seq<Token>)
    ensures Walk(Tokens(v, rest)) == if Unique(v) then Some(rest) else None
    decreases v
  {
    match v
    case Object(m) =>
      WalkOfMembers(m, rest, {});
      assert Tokens(v, rest)[1..] == MemberTokens(m, [CloseObject] + rest);
    case Array(e) =>
      WalkOfElements(e, rest);
      assert Tokens(v, rest)[1..] == ElementTokens(e, [CloseArray] + rest);
    case Text(_) =>
    case Other =>
  }

  lemma {:induction false} WalkOfMembers(m: Members, rest: seq<Token>, seen: set<string>)
    ensures WalkMembers(MemberTokens(m, [CloseObject] + rest), seen) ==
            if AllDifferent(Keys(m)) && Disjoint(Keys(m), seen) && UniqueMembers(m) then Some(rest) else None
    decreases m
  {
    match m
    case NoMember =>
    case Member(key, value, others) =>
      var after := MemberTokens(others, [CloseObject] + rest);
      WalkOfValue(value, after);
      WalkOfMembers(others, rest, seen + {key});
      KeysOfMember(key, Keys(others), seen);
      assert MemberTokens(m, [CloseObject] + rest)[1..] == Tokens(value, after);
  }

  lemma KeysOfMember(key: string, others: seq<string>, seen: set<string>)
    ensures (AllDifferent([key] + others) && Disjoint([key] + others, seen)) <==>
            (key !in seen && AllDifferent(others) && Disjoint(others, seen + {key}))
  {
    var keys := [key] + others;
    assert forall i :: 0 <= i < |others| ==> keys[i + 1] == others[i];
    assert keys[0] == key;
    if AllDifferent(keys) && Disjoint(keys, seen) {
      forall k | k in others ensures k !in seen + {key} {
        var i :| 0 <= i < |others| && others[i] == k;
        assert keys[i + 1] == k;
      }
    }
    if key !in seen && AllDifferent(others) && Disjoint(others, seen + {key}) {
      forall i, j | 0 <= i < j < |keys| ensures keys[i] != keys[j] {
        assert keys[j] == others[j - 1] && others[j - 1] in others;
        if i > 0 { assert keys[i] == others[i - 1]; }
      }
    }
  }

  lemma {:induction false} WalkOfElements(e: Elements, rest: seq<Token>)
    ensures WalkElements(ElementTokens(e, [CloseArray] + rest)) == if UniqueElements(e) then Some(rest) else None
    decreases e
  {
    match e
    case NoElement =>
    case Element(value, others) =>
      WalkOfValue(value, ElementTokens(others, [CloseArray] + rest));
      WalkOfElements(others, rest);
      ValueStartsMore(value, ElementTokens(others, [CloseArray] + rest));
  }

  lemma ValueStartsMore(v: Value, rest: seq<Token>)
    ensures More(Tokens(v, rest))
  {
  }

  /** Conversely, whatever the walk accepts starts with the tokens of a value without repeated keys. */
  lemma {:induction false} WalkFindsValue(ts: seq<Token>) returns (v: Value)
    requires Walk(ts).Some?
    ensures Unique(v) && ts == Tokens(v, Walk(ts).value)
    decreases |ts|, 0
  {
    var rest := Walk(ts).value;
    assert ts == [ts[0]] + ts[1..];
    match ts[0]
    case OpenObject =>
      var m := WalkFindsMembers(ts[1..], {});
      v := Object(m);
    case OpenArray =>
      var e := WalkFindsElements(ts[1..]);
      v := Array(e);
    case Str(s) => v := Text(s);
    case Scalar => v := Other;
  }

  lemma {:induction false} WalkFindsMembers(ts: seq<Token>, seen: set<string>) returns (m: Members)
    requires WalkMembers(ts, seen).Some?
    ensures AllDifferent(Keys(m)) && Disjoint(Keys(m), seen) && UniqueMembers(m)
    ensures ts == MemberTokens(m, [CloseObject] + WalkMembers(ts, seen).value)
    decreases |ts|, 1
  {
    assert ts == [ts[0]] + ts[1..];
    if !More(ts) {
      m := NoMember;
    } else {
      var value := WalkFindsValue(ts[1..]);
      var others := WalkFindsMembers(Walk(ts[1..]).value, seen + {ts[0].text});
      m := Member(ts[0].text, value, others);
      KeysOfMember(ts[0].text, Keys(others), seen);
    }
  }

  lemma {:induction false} WalkFindsElements(ts: seq<Token>) returns (e: Elements)
    requires WalkElements(ts).Some?
    ensures UniqueElements(e)
    ensures ts == ElementTokens(e, [CloseArray] + WalkElements(ts).value)
    decreases |ts|, 1
  {
    if !More(ts) {
      assert ts == [ts[0]] + ts[1..];
      e := NoElement;
    } else {
      var value := WalkFindsValue(ts);
      var others := WalkFindsElements(Walk(ts).value);
      e := Element(value, others);
    }
  }

  /** The whole check accepts exactly the token lists of one value without repeated keys. */
  lemma AcceptsIff(tokens: seq<Token>)
    ensures Walk(tokens) == Some([]) <==> exists v :: Unique(v) && tokens == Tokens(v, [])
  {
    if Walk(tokens) == Some([]) {
      var v := WalkFindsValue(tokens);
    }
    forall v | Unique(v) && tokens == Tokens(v, []) ensures Walk(tokens) == Some([]) {
      WalkOfValue(v, []);
    }
  }

  // ----- A token list is the tokens of at most one value -----

  lemma {:induction false} TokensDetermineValue(v: Value, r: seq<Token>, w: Value, s: seq<Token>)
    requires Tokens(v, r) == Tokens(w, s)
    ensures v == w && r == s
    decreases v
  {
    var a, b := Tokens(v, r), Tokens(w, s);
    assert a[0] == b[0] && a[1..] == b[1..];
    match v
    case Object(m) =>
      assert w.Object?;
      assert a[1..] == MemberTokens(m, [CloseObject] + r) && b[1..] == MemberTokens(w.members, [CloseObject] + s);
      TokensDetermineMembers(m, r, w.members, s);
    case Array(e) =>
      assert w.Array?;
      assert a[1..] == ElementTokens(e, [CloseArray] + r) && b[1..] == ElementTokens(w.elements, [CloseArray] + s);
      TokensDetermineElements(e, r, w.elements, s);
    case Text(_) =>
      assert a[1..] == r && b[1..] == s;
    case Other =>
      assert a[1..] == r && b[1..] == s;
  }

  lemma {:induction false} TokensDetermineMembers(m: Members, r: seq<Token>, n: Members, s: seq<Token>)
    requires MemberTokens(m, [CloseObject] + r) == MemberTokens(n, [CloseObject] + s)
    ensures m == n && r == s
    decreases m
  {
    var a, b := MemberTokens(m, [CloseObject] + r), MemberTokens(n, [CloseObject] + s);
    assert a[0] == b[0] && a[1..] == b[1..];
    match m
    case NoMember =>
      assert n.NoMember?;
      assert a[1..] == r && b[1..] == s;
    case Member(key, value, others) =>
      assert n.Member?;
      var x, y := MemberTokens(others, [CloseObject] + r), MemberTokens(n.others, [CloseObject] + s);
      assert a[1..] == Tokens(value, x) && b[1..] == Tokens(n.value, y);
      TokensDetermineValue(value, x, n.value, y);
      TokensDetermineMembers(others, r, n.others, s);
  }

  lemma {:induction false} TokensDetermineElements(e: Elements, r: seq<Token>, f: Elements, s: seq<Token>)
    requires ElementTokens(e, [CloseArray] + r) == ElementTokens(f, [CloseArray] + s)
    ensures e == f && r == s
    decreases e
  {
    var a, b := ElementTokens(e, [CloseArray] + r), ElementTokens(f, [CloseArray] + s);
    assert a[0] == b[0];
    match e
    case NoElement =>
      if f.Element? { ValueStartsMore(f.value, ElementTokens(f.others, [CloseArray] + s)); }
      assert f.NoElement?;
      assert a[1..] == r && b[1..] == s;
    case Element(value, others) =>
      ValueStartsMore(value, ElementTokens(others, [CloseArray] + r));
      assert f.Element?;
      TokensDetermineValue(value, ElementTokens(others, [CloseArray] + r),
                           f.value, ElementTokens(f.others, [CloseArray] + s));
      TokensDetermineElements(others, r, f.others, s);
  }
}
