/** preflight_json: the event machine that bounds nesting and tokens and refuses repeated keys. */
module JsonSafety {
  import opened Numbers

  datatype Json = Scalar | Array(items: seq<Json>) | Object(members: seq<Member>)
  datatype Member = Member(key: string, value: Json)

  datatype Limits = Limits(maxNestingDepth: nat, maxTokens: nat)
  datatype Status = Ok | Invalid | TooDeep | TooManyTokens | DuplicateKey

  datatype Event = ScalarEvent | StartObject | KeyEvent(key: string) | EndObject | StartArray | EndArray | ParseError

  // ---------- What a document asks for ----------

  function Children(j: Json): nat {
    match j
    case Scalar => 0
    case Array(items) => |items|
    case Object(members) => |members|
  }

  function Child(j: Json, i: nat): (c: Json)
    requires i < Children(j)
    ensures c < j
  {
    if j.Array? then j.items[i] else j.members[i].value
  }

  /** The number of containers on the longest way down. */
  function Depth(j: Json): nat
    decreases j, 0
  {
    if j.Scalar? then 0 else 1 + DepthOf(j, Children(j))
  }

  function DepthOf(j: Json, n: nat): nat
    requires n <= Children(j)
    decreases j, 0, n
  {
    if n == 0 then 0 else Max(DepthOf(j, n - 1), Depth(Child(j, n - 1)))
  }

  /** Every value and every key is a token. */
  function Tokens(j: Json): nat
    decreases j, 0
  {
    1 + TokensOf(j, Children(j))
  }

  function TokensOf(j: Json, n: nat): nat
    requires n <= Children(j)
    decreases j, 0, n
  {
    if n == 0 then 0
    else TokensOf(j, n - 1) + (if j.Object? then 1 else 0) + Tokens(Child(j, n - 1))
  }

  /** No object repeats a key; the same key may stand in different objects. */
  predicate Distinct(j: Json)
    decreases j, 0
  {
    DistinctOf(j, Children(j))
  }

  predicate DistinctOf(j: Json, n: nat)
    requires n <= Children(j)
    decreases j, 0, n
  {
    (forall i, k :: 0 <= i < k < n && j.Object? ==> j.members[i].key != j.members[k].key) &&
    (forall i :: 0 <= i < n ==> Distinct(Child(j, i)))
  }

  // ---------- The events of a document ----------

  function Events(j: Json): seq<Event>
    decreases j, 0
  {
    match j
    case Scalar => [ScalarEvent]
    case Array(items) => [StartArray] + EventsOf(j, |items|) + [EndArray]
    case Object(members) => [StartObject] + EventsOf(j, |members|) + [EndObject]
  }

  function EventsOf(j: Json, n: nat): seq<Event>
    requires n <= Children(j)
    decreases j, 0, n
  {
    if n == 0 then []
    else EventsOf(j, n - 1) + (if j.Object? then [KeyEvent(j.members[n - 1].key)] else []) + Events(Child(j, n - 1))
  }

  // ---------- The machine ----------

  datatype State = State(status: Status, depth: nat, tokens: nat, keys: seq<set<string>>)

  const INITIAL := State(Ok, 0, 0, [])

  function CountToken(limits: Limits, s: State): State {
    if s.tokens >= limits.maxTokens then s.(status := TooManyTokens) else s.(tokens := s.tokens + 1)
  }

  function BeginContainer(limits: Limits, s: State): State {
    var t := CountToken(limits, s);
    if t.status != Ok then t
    else if t.depth >= limits.maxNestingDepth then t.(status := TooDeep)
    else t.(depth := t.depth + 1)
  }

  /** One callback of the parser, which makes no further one once the status is not Ok. */
  function Step(limits: Limits, s: State, e: Event): State {
    match e
    case ScalarEvent => CountToken(limits, s)
    case StartObject =>
      var t := BeginContainer(limits, s);
      if t.status != Ok then t else t.(keys := t.keys + [{}])
    case KeyEvent(key) =>
      var t := CountToken(limits, s);
      if t.status != Ok then t
      else if t.keys == [] then t.(status := Invalid)
      else if key in t.keys[|t.keys| - 1] then t.(status := DuplicateKey)
      else t.(keys := t.keys[..|t.keys| - 1] + [t.keys[|t.keys| - 1] + {key}])
    case EndObject =>
      if s.keys == [] || s.depth == 0 then s.(status := Invalid)
      else s.(keys := s.keys[..|s.keys| - 1], depth := s.depth - 1)
    case StartArray => BeginContainer(limits, s)
    case EndArray => if s.depth == 0 then s.(status := Invalid) else s.(depth := s.depth - 1)
    case ParseError => if s.status == Ok then s.(status := Invalid) else s
  }

  function Feed(limits: Limits, s: State, es: seq<Event>): State
    decreases |es|
  {
    if s.status != Ok || es == [] then s else Feed(limits, Step(limits, s, es[0]), es[1..])
  }

  lemma {:induction false} FeedConcat(limits: Limits, s: State, a: seq<Event>, b: seq<Event>)
    ensures Feed(limits, s, a + b) == Feed(limits, Feed(limits, s, a), b)
    decreases |a|
  {
    hide Step;
    if s.status == Ok && a != [] {
      assert (a + b)[1..] == a[1..] + b;
      FeedConcat(limits, Step(limits, s, a[0]), a[1..], b);
    } else if a == [] {
      assert a + b == b;
    }
  }

  lemma FeedOne(limits: Limits, s: State, e: Event)
    ensures Feed(limits, s, [e]) == if s.status != Ok then s else Step(limits, s, e)
  {
    hide Step;
    assert Feed(limits, Step(limits, s, e), [][..]) == Step(limits, s, e);
  }

  /** The status names a limit that the document does break. */
  predicate Blames(limits: Limits, status: Status, depth: nat, tokens: nat, distinct: bool) {
    match status
    case TooManyTokens => tokens > limits.maxTokens
    case TooDeep => depth > limits.maxNestingDepth
    case DuplicateKey => !distinct
    case _ => false
  }

  predicate Within(limits: Limits, depth: nat, tokens: nat, distinct: bool) {
    tokens <= limits.maxTokens && depth <= limits.maxNestingDepth && distinct
  }

  function Keys(j: Json, n: nat): set<string>
    requires n <= Children(j)
  {
    set i | 0 <= i < n && j.Object? :: j.members[i].key
  }

  /** The state after a document that kept within the limits, or the blame. */
  ghost predicate EndsAs(limits: Limits, s: State, after: State, j: Json) {
    if Within(limits, s.depth + Depth(j), s.tokens + Tokens(j), Distinct(j)) then
      after == s.(tokens := s.tokens + Tokens(j))
    else Blames(limits, after.status, s.depth + Depth(j), s.tokens + Tokens(j), Distinct(j))
  }

  ghost predicate EndsAsOf(limits: Limits, s: State, after: State, j: Json, n: nat)
    requires n <= Children(j) && (j.Object? ==> s.keys != [])
  {
    if Within(limits, s.depth + DepthOf(j, n), s.tokens + TokensOf(j, n), DistinctOf(j, n)) then
      after == s.(tokens := s.tokens + TokensOf(j, n), keys := if j.Object? then s.keys[..|s.keys| - 1] + [Keys(j, n)] else s.keys)
    else Blames(limits, after.status, s.depth + DepthOf(j, n), s.tokens + TokensOf(j, n), DistinctOf(j, n))
  }

  /** Going on, with both counters within the limits. */
  predicate Running(limits: Limits, s: State) {
    s.status == Ok && s.depth <= limits.maxNestingDepth && s.tokens <= limits.maxTokens
  }

  lemma {:induction false} FeedTree(limits: Limits, j: Json, s: State)
    requires Running(limits, s)
    ensures EndsAs(limits, s, Feed(limits, s, Events(j)), j)
    decreases j, 0
  {
    hide EndsAsOf, Feed, DepthOf, TokensOf, DistinctOf, EventsOf;
    if j.Scalar? {
      FeedOne(limits, s, ScalarEvent);
      ScalarIs();
    } else {
      var open, close := if j.Array? then StartArray else StartObject, if j.Array? then EndArray else EndObject;
      var begun := Step(limits, s, open);
      FeedOne(limits, s, open);
      FeedConcat(limits, s, [open] + EventsOf(j, Children(j)), [close]);
      FeedConcat(limits, s, [open], EventsOf(j, Children(j)));
      var inside := Feed(limits, begun, EventsOf(j, Children(j)));
      FeedOne(limits, inside, close);
      if begun.status == Ok {
        FeedChildren(limits, j, Children(j), begun);
        Inside(limits, j, s, begun, inside);
      } else {
        FeedStuck(limits, begun, EventsOf(j, Children(j)));
      }
    }
  }

  lemma ScalarIs()
    ensures Depth(Scalar) == 0 && Tokens(Scalar) == 1 && Distinct(Scalar)
  {
  }

  lemma FeedStuck(limits: Limits, s: State, es: seq<Event>)
    requires s.status != Ok
    ensures Feed(limits, s, es) == s
  {
  }

  lemma Inside(limits: Limits, j: Json, s: State, begun: State, inside: State)
    requires !j.Scalar? && s.status == Ok && begun.status == Ok
    requires begun == Step(limits, s, if j.Array? then StartArray else StartObject)
    requires EndsAsOf(limits, begun, inside, j, Children(j))
    ensures EndsAs(limits, s, if inside.status != Ok then inside else Step(limits, inside, if j.Array? then EndArray else EndObject), j)
  {
    hide DepthOf, TokensOf, DistinctOf, Keys;
  }

  lemma Grows(j: Json, n: nat)
    requires 0 < n <= Children(j)
    ensures DepthOf(j, n) == Max(DepthOf(j, n - 1), Depth(Child(j, n - 1)))
    ensures TokensOf(j, n) == TokensOf(j, n - 1) + (if j.Object? then 1 else 0) + Tokens(Child(j, n - 1)) && Tokens(Child(j, n - 1)) > 0
    ensures DistinctOf(j, n) <==>
            DistinctOf(j, n - 1) && Distinct(Child(j, n - 1)) && (j.Object? ==> j.members[n - 1].key !in Keys(j, n - 1))
    ensures j.Object? ==> Keys(j, n) == Keys(j, n - 1) + {j.members[n - 1].key}
  {
    hide Depth, Distinct;
  }

  lemma FeedNothing(limits: Limits, j: Json, s: State)
    requires Running(limits, s) && !j.Scalar? && (j.Object? ==> s.keys != [] && s.keys[|s.keys| - 1] == {})
    ensures EndsAsOf(limits, s, Feed(limits, s, EventsOf(j, 0)), j, 0)
  {
    assert Keys(j, 0) == {};
  }

  lemma BlameStays(limits: Limits, j: Json, n: nat, s: State, before: State)
    requires 0 < n <= Children(j) && s.status == Ok && (j.Object? ==> s.keys != [])
    requires EndsAsOf(limits, s, before, j, n - 1) && before.status != Ok
    ensures EndsAsOf(limits, s, before, j, n)
  {
    hide DepthOf, TokensOf, DistinctOf, Keys;
    Grows(j, n);
  }

  lemma AfterKey(limits: Limits, j: Json, n: nat, s: State, before: State)
    requires 0 < n <= Children(j) && s.status == Ok && (j.Object? ==> s.keys != [])
    requires EndsAsOf(limits, s, before, j, n - 1) && before.status == Ok && Running(limits, s)
    ensures var keyed := Feed(limits, before, if j.Object? then [KeyEvent(j.members[n - 1].key)] else []);
            if keyed.status == Ok then
              Running(limits, keyed) && keyed == (if j.Object? then Step(limits, before, KeyEvent(j.members[n - 1].key)) else before)
            else EndsAsOf(limits, s, keyed, j, n)
  {
    hide DepthOf, TokensOf, DistinctOf, Keys, Depth, Tokens, Distinct;
    Grows(j, n);
    if j.Object? {
      FeedOne(limits, before, KeyEvent(j.members[n - 1].key));
    }
  }

  lemma ChildAdds(limits: Limits, j: Json, n: nat, s: State, before: State, keyed: State, after: State)
    requires 0 < n <= Children(j) && s.status == Ok && (j.Object? ==> s.keys != [])
    requires EndsAsOf(limits, s, before, j, n - 1) && before.status == Ok && keyed.status == Ok
    requires keyed == (if j.Object? then Step(limits, before, KeyEvent(j.members[n - 1].key)) else before)
    requires EndsAs(limits, keyed, after, Child(j, n - 1))
    ensures EndsAsOf(limits, s, after, j, n)
  {
    hide DepthOf, TokensOf, DistinctOf, Keys, Depth, Tokens, Distinct;
    Grows(j, n);
    if j.Object? {
      var rest := s.keys[..|s.keys| - 1];
      assert before.keys == rest + [Keys(j, n - 1)] && before.keys[..|before.keys| - 1] == rest;
    }
  }

  lemma {:induction false} FeedChildren(limits: Limits, j: Json, n: nat, s: State)
    requires n <= Children(j) && Running(limits, s) && !j.Scalar? && (j.Object? ==> s.keys != [] && s.keys[|s.keys| - 1] == {})
    ensures EndsAsOf(limits, s, Feed(limits, s, EventsOf(j, n)), j, n)
    decreases j, 0, n
  {
    hide EndsAsOf, EndsAs, Feed, Depth, Tokens, Distinct, Events;
    if n == 0 {
      FeedNothing(limits, j, s);
    } else {
      var child := Child(j, n - 1);
      var before := Feed(limits, s, EventsOf(j, n - 1));
      FeedChildren(limits, j, n - 1, s);
      var key := if j.Object? then [KeyEvent(j.members[n - 1].key)] else [];
      FeedConcat(limits, s, EventsOf(j, n - 1) + key, Events(child));
      FeedConcat(limits, s, EventsOf(j, n - 1), key);
      var keyed := Feed(limits, before, key);
      if before.status != Ok {
        FeedStuck(limits, before, key);
        FeedStuck(limits, before, Events(child));
        BlameStays(limits, j, n, s, before);
      } else {
        AfterKey(limits, j, n, s, before);
        if keyed.status == Ok {
          FeedTree(limits, child, keyed);
          ChildAdds(limits, j, n, s, before, keyed, Feed(limits, keyed, Events(child)));
        } else {
          FeedStuck(limits, keyed, Events(child));
        }
      }
    }
  }

  /** Fed the events of any document, the machine ends Ok exactly when the document keeps within both
      limits and no object repeats a key, with its counters back at rest; otherwise the status names
      a limit that the document breaks, and never the branches for ill-formed streams. */
  lemma PreflightExact(limits: Limits, j: Json)
    ensures var r := Feed(limits, INITIAL, Events(j));
            && (r.status == Ok <==> Within(limits, Depth(j), Tokens(j), Distinct(j)))
            && (r.status == Ok ==> r == State(Ok, 0, Tokens(j), []))
            && (r.status != Ok ==> Blames(limits, r.status, Depth(j), Tokens(j), Distinct(j)))
  {
    hide Feed, Events, Depth, Tokens, Distinct;
    FeedTree(limits, j, INITIAL);
  }

  // ---------- The object ----------

  class SafetySax {
    const limits: Limits
    var status: Status
    var depth: nat
    var tokenCount: nat
    var objectKeys: seq<set<string>>

    constructor (limits: Limits)
      ensures this.limits == limits && Now() == INITIAL
    {
      this.limits := limits;
      status, depth, tokenCount, objectKeys := Ok, 0, 0, [];
    }

    ghost function Now(): State
      reads this
    {
      State(status, depth, tokenCount, objectKeys)
    }

    method Count() returns (ok: bool)
      requires status == Ok
      modifies this
      ensures Now() == CountToken(limits, old(Now())) && ok == (status == Ok)
    {
      if tokenCount >= limits.maxTokens {
        status := TooManyTokens;
        return false;
      }
      tokenCount := tokenCount + 1;
      ok := true;
    }

    method Begin() returns (ok: bool)
      requires status == Ok
      modifies this
      ensures Now() == BeginContainer(limits, old(Now())) && ok == (status == Ok)
    {
      ok := Count();
      if !ok {
        return;
      }
      if depth >= limits.maxNestingDepth {
        status := TooDeep;
        return false;
      }
      depth := depth + 1;
    }

    /** The callback for one event; `ok` tells the parser to go on. */
    method Receive(e: Event) returns (ok: bool)
      requires status == Ok
      modifies this
      ensures Now() == Step(limits, old(Now()), e) && ok == (status == Ok)
    {
      match e {
        case ScalarEvent =>
          ok := Count();
        case StartObject =>
          ok := Begin();
          if ok {
            objectKeys := objectKeys + [{}];
          }
        case KeyEvent(key) =>
          ok := Count();
          if !ok {
            return;
          }
          if objectKeys == [] {
            status := Invalid;
            return false;
          }
          var last := |objectKeys| - 1;
          if key in objectKeys[last] {
            status := DuplicateKey;
            return false;
          }
          objectKeys := objectKeys[..last] + [objectKeys[last] + {key}];
        case EndObject =>
          if objectKeys == [] || depth == 0 {
            status := Invalid;
            return false;
          }
          objectKeys, depth := objectKeys[..|objectKeys| - 1], depth - 1;
          ok := true;
        case StartArray =>
          ok := Begin();
        case EndArray =>
          if depth == 0 {
            status := Invalid;
            return false;
          }
          depth := depth - 1;
          ok := true;
        case ParseError =>
          status := Invalid;
          ok := false;
      }
    }
  }

  /** What the JSON parser makes of a text: the document, or the events before its first error. */
  datatype Parsed = Document(json: Json) | Malformed(before: seq<Event>)

  function Stream(p: Parsed): seq<Event> {
    match p
    case Document(json) => Events(json)
    case Malformed(before) => before + [ParseError]
  }

  method Preflight(p: Parsed, limits: Limits) returns (r: Status)
    ensures r == Ok <==> limits.maxNestingDepth > 0 && limits.maxTokens > 0 && p.Document? &&
                         Within(limits, Depth(p.json), Tokens(p.json), Distinct(p.json))
    ensures p.Document? && limits.maxNestingDepth > 0 && limits.maxTokens > 0 && r != Ok ==>
              Blames(limits, r, Depth(p.json), Tokens(p.json), Distinct(p.json))
    ensures limits.maxNestingDepth == 0 || limits.maxTokens == 0 ==> r == Invalid
  {
    hide Depth, Tokens, Distinct, Events, Step;
    if limits.maxNestingDepth == 0 || limits.maxTokens == 0 {
      return Invalid;
    }
    var sax := new SafetySax(limits);
    var es, i, ok := Stream(p), 0, true;
    while ok && i < |es|
      invariant 0 <= i <= |es| && sax.limits == limits
      invariant ok == (sax.status == Ok)
      invariant Feed(limits, INITIAL, es) == Feed(limits, sax.Now(), es[i..])
    {
      ok := sax.Receive(es[i]);
      assert es[i..][1..] == es[i + 1..];
      i := i + 1;
    }
    assert sax.Now() == Feed(limits, INITIAL, es);
    if p.Document? {
      PreflightExact(limits, p.json);
    } else {
      MalformedFails(limits, p.before);
    }
    r := sax.status;
  }

  lemma MalformedFails(limits: Limits, before: seq<Event>)
    ensures Feed(limits, INITIAL, before + [ParseError]).status != Ok
  {
    FeedConcat(limits, INITIAL, before, [ParseError]);
    FeedOne(limits, Feed(limits, INITIAL, before), ParseError);
  }
}
