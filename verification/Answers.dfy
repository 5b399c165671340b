/**
 * Reading Dhan's answers: the error taxonomy (`errors.py`) and the one client
 * that can reach the venue (`http.py`). The status code is never read.
 */
module Answers {
  import opened Wrappers

  /** A JSON body. Objects keep the order their keys arrived in. */
  datatype Json =
    | Null
    | Bool(b: bool)
    | Number(n: real)
    | Text(s: string)
    | Array(items: seq<Json>)
    | Object(fields: seq<(string, Json)>)

  /** Python's `str()` on the values that are not text already. */
  type Renderer = Json -> string

  function Str(j: Json, render: Renderer): string
  {
    if j.Text? then j.s else render(j)
  }

  predicate Truthy(j: Json)
  {
    match j
    case Null => false
    case Bool(b) => b
    case Number(n) => n != 0.0
    case Text(s) => s != ""
    case Array(items) => items != []
    case Object(fields) => fields != []
  }

  predicate Has(o: Json, key: string)
  {
    o.Object? && exists i :: 0 <= i < |o.fields| && o.fields[i].0 == key
  }

  /** dict.get: the value, or Null. A JSON object that repeats a key keeps the last. */
  function Get(o: Json, key: string): (v: Json)
    ensures !Has(o, key) ==> v == Null
    decreases if o.Object? then |o.fields| else 0
  {
    if !o.Object? || o.fields == [] then Null
    else
      var n := |o.fields| - 1;
      if o.fields[n].0 == key then o.fields[n].1 else Get(Object(o.fields[..n]), key)
  }

  /** No field under this key. */
  predicate Lacks(fields: seq<(string, Json)>, key: string)
  {
    forall i :: 0 <= i < |fields| ==> fields[i].0 != key
  }

  /** The i-th field is the last under its key. */
  predicate IsLast(fields: seq<(string, Json)>, i: nat, key: string, v: Json)
  {
    i < |fields| && fields[i] == (key, v) && forall j :: i < j < |fields| ==> fields[j].0 != key
  }

  /** A key's value is its last field's, whatever else the object holds and wherever that stands. */
  lemma {:induction false} LastFieldWins(fields: seq<(string, Json)>, i: nat, key: string, v: Json)
    requires IsLast(fields, i, key, v)
    ensures Has(Object(fields), key) && Get(Object(fields), key) == v
    decreases |fields|
  {
    var n := |fields| - 1;
    assert Object(fields).fields[i].0 == key;
    if i < n {
      assert fields[..n][i] == (key, v);
      LastFieldWins(fields[..n], i, key, v);
    }
  }

  lemma {:induction false} NoFieldIsNull(fields: seq<(string, Json)>, key: string)
    ensures Has(Object(fields), key) <==> !Lacks(fields, key)
    ensures Lacks(fields, key) ==> Get(Object(fields), key) == Null
  {
    if Has(Object(fields), key) {
      var i :| 0 <= i < |Object(fields).fields| && Object(fields).fields[i].0 == key;
      assert fields[i].0 == key;
    }
    if !Lacks(fields, key) {
      var i :| 0 <= i < |fields| && fields[i].0 == key;
      assert Object(fields).fields[i].0 == key;
    }
  }

  lemma {:induction false} HasLast(fields: seq<(string, Json)>, key: string) returns (i: nat)
    requires !Lacks(fields, key)
    ensures i < |fields| && IsLast(fields, i, key, fields[i].1)
    decreases |fields|
  {
    var n := |fields| - 1;
    if fields[n].0 == key {
      i := n;
    } else {
      assert fields == fields[..n] + [fields[n]];
      i := HasLast(fields[..n], key);
      assert fields[i] == fields[..n][i];
    }
  }

  // ----- the taxonomy ------------------------------------------------------

  /** Why a body is a failure: the venue's reason, its code and its type. */
  datatype Failure = Failure(reason: string, code: string, errorType: string)

  /** The exception classes. Ambiguous is a TransportError; the rest are siblings. */
  datatype DhanError =
    | TransportError
    | Ambiguous
    | DhanApiError(failure: Failure)
    | IPNotWhitelisted(failure: Failure)
    | RateLimited(failure: Failure)

  datatype Answer = Payload(body: Json) | Raised(error: DhanError)

  function LowerChar(c: char): char
  {
    if 'A' <= c <= 'Z' then c + ' ' else c
  }

  function Lower(s: string): string
  {
    seq(|s|, i requires 0 <= i < |s| => LowerChar(s[i]))
  }

  predicate Contains(s: string, phrase: string)
  {
    exists i: nat :: i <= |s| && IsAt(s, phrase, i)
  }

  predicate IsAt(s: string, phrase: string, i: nat)
  {
    i + |phrase| <= |s| && s[i..i + |phrase|] == phrase
  }

  /** A letter in either case; any other character as it is. */
  predicate SameLetter(c: char, l: char)
  {
    c == l || ('a' <= l <= 'z' && c as int + 32 == l as int)
  }

  /** The phrase stands at this place, in whatever casing. */
  predicate Matches(s: string, phrase: string, i: nat)
  {
    i + |phrase| <= |s| && forall k :: 0 <= k < |phrase| ==> SameLetter(s[i + k], phrase[k])
  }

  predicate Mentions(s: string, phrase: string)
  {
    exists i: nat :: i <= |s| && Matches(s, phrase, i)
  }

  predicate NoCapitals(phrase: string)
  {
    forall k :: 0 <= k < |phrase| ==> !('A' <= phrase[k] <= 'Z')
  }

  lemma LettersMatch(s: string, phrase: string, i: nat)
    requires NoCapitals(phrase)
    ensures IsAt(Lower(s), phrase, i) <==> Matches(s, phrase, i)
  {
    var l := Lower(s);
    if i + |phrase| <= |s| {
      forall k | 0 <= k < |phrase| ensures l[i + k] == phrase[k] <==> SameLetter(s[i + k], phrase[k]) {
      }
      if IsAt(l, phrase, i) {
        var part := l[i..i + |phrase|];
        assert forall k :: 0 <= k < |phrase| ==> part[k] == l[i + k];
      }
    }
  }

  /** Lower-casing a text and looking for a phrase finds it in any casing. */
  lemma AnyCasing(s: string, phrase: string)
    requires NoCapitals(phrase)
    ensures Contains(Lower(s), phrase) <==> Mentions(s, phrase)
    ensures Lower(s) == phrase <==> |s| == |phrase| && Matches(s, phrase, 0)
  {
    hide Lower, IsAt, Matches;
    forall i: nat ensures IsAt(Lower(s), phrase, i) <==> Matches(s, phrase, i) {
      LettersMatch(s, phrase, i);
    }
    SameSize(s);
    WholeIsAt(Lower(s), phrase);
  }

  lemma SameSize(s: string)
    ensures |Lower(s)| == |s|
  {
  }

  lemma WholeIsAt(s: string, phrase: string)
    ensures s == phrase <==> |s| == |phrase| && IsAt(s, phrase, 0)
  {
    if |s| == |phrase| {
      assert s[0..0 + |phrase|] == s;
    }
  }

  const UNSPECIFIED: string := "unspecified failure"

  /** Stands for the source's advice to the operator, which holds none of the phrases looked for below. */
  const NO_SUCH_PATH: string := ": no such path"

  function Or(j: Json, fallback: string, render: Renderer): string
  {
    if Truthy(j) then Str(j, render) else fallback
  }

  predicate IsSuccess(status: Json, render: Renderer)
  {
    Lower(Str(status, render)) == "success"
  }

  /** The `{code: message}` map an envelope hides its failure under. */
  function JoinMessages(fields: seq<(string, Json)>, render: Renderer): string
  {
    if fields == [] then ""
    else if |fields| == 1 then Str(fields[0].1, render)
    else Str(fields[0].1, render) + "; " + JoinMessages(fields[1..], render)
  }

  function JoinCodes(fields: seq<(string, Json)>): string
  {
    if fields == [] then ""
    else if |fields| == 1 then fields[0].0
    else fields[0].0 + "," + JoinCodes(fields[1..])
  }

  function FailureInObject(body: Json, render: Renderer): Maybe<Failure>
    requires body.Object?
  {
    if Has(body, "errorMessage") || Has(body, "errorCode") || Has(body, "errorType") then
      Some(Failure(Or(Get(body, "errorMessage"), UNSPECIFIED, render),
                   Or(Get(body, "errorCode"), "", render), Or(Get(body, "errorType"), "", render)))
    else
      var status := Get(body, "status");
      if status.Null? || IsSuccess(status, render) then None
      else if Has(body, "error") && Has(body, "path") then
        Some(Failure(Str(Get(body, "error"), render) + " for " + Str(Get(body, "path"), render)
                     + NO_SUCH_PATH, Str(status, render), "GatewayError"))
      else
        var data := Get(body, "data");
        var reason := if data.Object? then JoinMessages(data.fields, render) else "";
        var code := if data.Object? then JoinCodes(data.fields) else "";
        Some(Failure(if reason == "" then "Dhan answered status=" + render(status) else reason,
                     code, Str(status, render)))
  }

  function FailureInElement(element: Json, render: Renderer): Maybe<Failure>
  {
    if !element.Object? then None
    else if Has(element, "errorMessage") then
      Some(Failure(Or(Get(element, "errorMessage"), UNSPECIFIED, render),
                   Or(Get(element, "errorCode"), "", render), Or(Get(element, "errorType"), "", render)))
    else
      var status := Get(element, "status");
      if status.Null? || IsSuccess(status, render) then None
      else Some(Failure(Or(Get(element, "message"), UNSPECIFIED, render),
                        Or(Get(element, "code"), "", render), Str(status, render)))
  }

  /** The first element of a bare array that is an error, if any is. */
  function FailureInArray(items: seq<Json>, render: Renderer): Maybe<Failure>
  {
    if items == [] then None
    else if FailureInElement(items[0], render).Some? then FailureInElement(items[0], render)
    else FailureInArray(items[1..], render)
  }

  predicate IsRate(f: Failure)
  {
    f.code == "DH-904" || f.errorType == "Rate_Limit"
  }

  /** The venue's words for an address it will not take orders from. */
  predicate IsIP(f: Failure)
  {
    var reason := Lower(f.reason);
    Contains(reason, "invalid ip") || Contains(reason, "ip not whitelisted") || Contains(reason, "not whitelisted")
  }

  function RaiseFor(f: Failure): DhanError
  {
    if IsRate(f) then RateLimited(f) else if IsIP(f) then IPNotWhitelisted(f) else DhanApiError(f)
  }

  function Classify(body: Json, render: Renderer): (a: Answer)
  {
    match body
    case Array(items) =>
      (match FailureInArray(items, render) case Some(f) => Raised(RaiseFor(f)) case None => Payload(body))
    case Object(_) =>
      (match FailureInObject(body, render)
       case Some(f) => Raised(RaiseFor(f))
       case None =>
         Payload(if Get(body, "status") == Text("success") && Has(body, "data") then Get(body, "data") else body))
    case _ => Raised(TransportError)
  }

  // ----- transport ---------------------------------------------------------

  /** What a request came to: no response, a response that is not JSON, or a body. */
  datatype Transport = Lost | Garbled | Answered(body: Json)

  function Read(t: Transport, render: Renderer): Answer
  {
    match t
    case Answered(body) => Classify(body, render)
    case _ => Raised(TransportError)
  }

  function Write(t: Transport, render: Renderer): Answer
  {
    match t
    case Answered(body) => Classify(body, render)
    case _ => Raised(Ambiguous)
  }

  // ----- what an answer is evidence of -------------------------------------

  predicate IsFailureBody(body: Json, render: Renderer)
  {
    match body
    case Array(items) => exists i :: 0 <= i < |items| && FailureInElement(items[i], render).Some?
    case Object(_) => FailureInObject(body, render).Some?
    case _ => false
  }

  lemma {:induction false} ArrayFails(items: seq<Json>, render: Renderer)
    ensures FailureInArray(items, render).Some? <==>
      exists i :: 0 <= i < |items| && FailureInElement(items[i], render).Some?
  {
    hide FailureInElement;
    if items != [] {
      ArrayFails(items[1..], render);
      if FailureInElement(items[0], render).None? {
        forall i | 0 <= i < |items| && FailureInElement(items[i], render).Some?
          ensures FailureInElement(items[1..][i - 1], render).Some?
        {
        }
      }
    }
  }

  /**
   * The whole evidence rule of the transport. Ambiguity belongs to writes that
   * read no JSON and to nothing else; a body decides everything else, the same
   * way for a read as for a write.
   */
  lemma AmbiguityIsSilence(t: Transport, render: Renderer)
    ensures Write(t, render) == Raised(Ambiguous) <==> !t.Answered?
    ensures Read(t, render) != Raised(Ambiguous)
    ensures t.Answered? ==> Read(t, render) == Write(t, render)
  {
    hide FailureInArray, FailureInObject, IsIP;
  }

  /** A body raises exactly when it is a failure or not a container at all. */
  lemma BodiesDecide(body: Json, render: Renderer)
    ensures Classify(body, render).Raised? <==> IsFailureBody(body, render) || !(body.Array? || body.Object?)
    ensures Classify(body, render) == Raised(TransportError) <==> !(body.Array? || body.Object?)
  {
    hide FailureInObject, FailureInElement, IsIP;
    if body.Array? {
      ArrayFails(body.items, render);
    }
  }

  // ----- which bodies fail, and what they say ------------------------------

  /** The object says under its status, in whatever casing, something else than success. */
  predicate SaysUnsuccessful(fields: seq<(string, Json)>, render: Renderer)
  {
    exists i: nat :: i < |fields| && IsLast(fields, i, "status", fields[i].1) && !fields[i].1.Null?
      && var word := Str(fields[i].1, render);
         !(|word| == 7 && Matches(word, "success", 0))
  }

  lemma {:induction false} WhenUnsuccessful(fields: seq<(string, Json)>, render: Renderer)
    ensures
      var status := Get(Object(fields), "status");
      SaysUnsuccessful(fields, render) <==> !status.Null? && !IsSuccess(status, render)
  {
    hide Get, Lower, Matches, Str;
    var status := Get(Object(fields), "status");
    AnyCasing(Str(status, render), "success");
    NoFieldIsNull(fields, "status");
    if !Lacks(fields, "status") {
      var i := HasLast(fields, "status");
      LastFieldWins(fields, i, "status", fields[i].1);
    }
    if SaysUnsuccessful(fields, render) {
      var i: nat :| i < |fields| && IsLast(fields, i, "status", fields[i].1) && !fields[i].1.Null?
        && var word := Str(fields[i].1, render);
           !(|word| == 7 && Matches(word, "success", 0));
      LastFieldWins(fields, i, "status", fields[i].1);
    }
  }

  /**
   * Exactly which objects are failures: those with one of the three error
   * fields, and those whose status says anything but success. In a bare array,
   * of the three fields only the message counts.
   */
  lemma {:induction false} WhichObjectsFail(fields: seq<(string, Json)>, render: Renderer)
    ensures FailureInObject(Object(fields), render).Some? <==>
      || !Lacks(fields, "errorMessage") || !Lacks(fields, "errorCode") || !Lacks(fields, "errorType")
      || SaysUnsuccessful(fields, render)
    ensures FailureInElement(Object(fields), render).Some? <==>
      !Lacks(fields, "errorMessage") || SaysUnsuccessful(fields, render)
  {
    hide Get, Has, Lacks, SaysUnsuccessful, IsSuccess, JoinMessages, JoinCodes, Or;
    NoFieldIsNull(fields, "errorMessage");
    NoFieldIsNull(fields, "errorCode");
    NoFieldIsNull(fields, "errorType");
    WhenUnsuccessful(fields, render);
  }

  /** The text an object says under a key; none is the empty text. */
  predicate SaysText(fields: seq<(string, Json)>, key: string, text: string)
  {
    (text == "" && Lacks(fields, key)) || exists i: nat :: i < |fields| && IsLast(fields, i, key, Text(text))
  }

  lemma {:induction false} TextIsRead(fields: seq<(string, Json)>, key: string, text: string, render: Renderer)
    requires SaysText(fields, key, text)
    ensures Or(Get(Object(fields), key), "", render) == text
    ensures text != "" ==> forall fallback :: Or(Get(Object(fields), key), fallback, render) == text
    ensures text != "" ==> Has(Object(fields), key) && Get(Object(fields), key) == Text(text)
  {
    hide Get, Has;
    NoFieldIsNull(fields, key);
    if !Lacks(fields, key) {
      var i: nat :| i < |fields| && IsLast(fields, i, key, Text(text));
      LastFieldWins(fields, i, key, Text(text));
    }
  }

  /** A refusal with a message is told in the message's words, with the code and type beside it. */
  lemma {:induction false} RefusalsSay(
    fields: seq<(string, Json)>, message: string, code: string, errorType: string, render: Renderer)
    requires message != "" && SaysText(fields, "errorMessage", message)
    requires SaysText(fields, "errorCode", code) && SaysText(fields, "errorType", errorType)
    ensures FailureInObject(Object(fields), render) == Some(Failure(message, code, errorType))
    ensures FailureInElement(Object(fields), render) == Some(Failure(message, code, errorType))
  {
    hide Get, Has, Or, SaysText;
    TextIsRead(fields, "errorMessage", message, render);
    TextIsRead(fields, "errorCode", code, render);
    TextIsRead(fields, "errorType", errorType, render);
  }

  /** Python's falsy values, which say nothing. */
  const NOTHING_SAID: set<Json> := {Null, Bool(false), Number(0.0), Text(""), Array([]), Object([])}

  /** A refusal whose message says nothing is unspecified, and one that says anything else says it as `str()` does. */
  lemma {:induction false} UnspecifiedRefusals(fields: seq<(string, Json)>, i: nat, message: Json, render: Renderer)
    requires IsLast(fields, i, "errorMessage", message)
    ensures
      var f := FailureInObject(Object(fields), render);
      f.Some? && f.value.reason
        == if message in NOTHING_SAID then "unspecified failure" else if message.Text? then message.s else render(message)
  {
    hide Get, Has;
    LastFieldWins(fields, i, "errorMessage", message);
  }

  lemma Regroup(x: string, separator: string, y: string, z: string)
    ensures x + separator + (y + separator + z) == (x + separator + y) + separator + z
  {
  }

  /** A map of codes to messages is told code by code, in its order. */
  lemma {:induction false} CodesSplit(a: seq<(string, Json)>, b: seq<(string, Json)>)
    requires a != [] && b != []
    ensures JoinCodes(a + b) == JoinCodes(a) + "," + JoinCodes(b)
  {
    assert (a + b)[0] == a[0] && (a + b)[1..] == a[1..] + b;
    if |a| > 1 {
      CodesSplit(a[1..], b);
      Regroup(a[0].0, ",", JoinCodes(a[1..]), JoinCodes(b));
    } else {
      assert a[1..] + b == b;
    }
  }

  lemma {:induction false} MessagesSplit(a: seq<(string, Json)>, b: seq<(string, Json)>, render: Renderer)
    requires a != [] && b != []
    ensures JoinMessages(a + b, render) == JoinMessages(a, render) + "; " + JoinMessages(b, render)
  {
    hide Str;
    assert (a + b)[0] == a[0] && (a + b)[1..] == a[1..] + b;
    if |a| > 1 {
      MessagesSplit(a[1..], b, render);
      Regroup(Str(a[0].1, render), "; ", JoinMessages(a[1..], render), JoinMessages(b, render));
    } else {
      assert a[1..] + b == b;
    }
  }

  lemma JoinsOne(code: string, message: string, render: Renderer)
    ensures JoinMessages([(code, Text(message))], render) == message && JoinCodes([(code, Text(message))]) == code
  {
  }

  predicate LacksErrors(fields: seq<(string, Json)>)
  {
    Lacks(fields, "errorMessage") && Lacks(fields, "errorCode") && Lacks(fields, "errorType")
  }

  /** An envelope that is no success is told in the messages and codes its data maps, with the status as its type. */
  lemma {:induction false} EnvelopesSay(
    fields: seq<(string, Json)>, status: string, i: nat, entries: seq<(string, Json)>, render: Renderer)
    requires LacksErrors(fields) && SaysUnsuccessful(fields, render) && Lacks(fields, "path")
    requires status != "" && SaysText(fields, "status", status) && IsLast(fields, i, "data", Object(entries))
    requires JoinMessages(entries, render) != ""
    ensures FailureInObject(Object(fields), render)
      == Some(Failure(JoinMessages(entries, render), JoinCodes(entries), status))
  {
    hide Get, Has, SaysUnsuccessful, IsSuccess, JoinMessages, JoinCodes, Lacks, SaysText;
    NoFieldIsNull(fields, "errorMessage");
    NoFieldIsNull(fields, "errorCode");
    NoFieldIsNull(fields, "errorType");
    NoFieldIsNull(fields, "path");
    WhenUnsuccessful(fields, render);
    TextIsRead(fields, "status", status, render);
    LastFieldWins(fields, i, "data", Object(entries));
  }

  /** The gateway's own error names the path it did not find. */
  lemma {:induction false} GatewaysSay(
    fields: seq<(string, Json)>, error: string, path: string, render: Renderer)
    requires LacksErrors(fields) && SaysUnsuccessful(fields, render)
    requires error != "" && SaysText(fields, "error", error) && path != "" && SaysText(fields, "path", path)
    ensures
      var f := FailureInObject(Object(fields), render);
      f.Some? && f.value.errorType == "GatewayError" && error + " for " + path <= f.value.reason
  {
    hide Get, Has, SaysUnsuccessful, IsSuccess, Lacks, SaysText;
    NoFieldIsNull(fields, "errorMessage");
    NoFieldIsNull(fields, "errorCode");
    NoFieldIsNull(fields, "errorType");
    WhenUnsuccessful(fields, render);
    TextIsRead(fields, "error", error, render);
    TextIsRead(fields, "path", path, render);
  }

  /** An element that is no success is told in its own message and code, with its status as its type. */
  lemma {:induction false} ElementsSay(
    fields: seq<(string, Json)>, status: string, message: string, code: string, render: Renderer)
    requires Lacks(fields, "errorMessage") && SaysUnsuccessful(fields, render)
    requires status != "" && SaysText(fields, "status", status)
    requires message != "" && SaysText(fields, "message", message) && SaysText(fields, "code", code)
    ensures FailureInElement(Object(fields), render) == Some(Failure(message, code, status))
  {
    hide Get, Has, SaysUnsuccessful, IsSuccess, Lacks, Or, SaysText;
    NoFieldIsNull(fields, "errorMessage");
    WhenUnsuccessful(fields, render);
    TextIsRead(fields, "status", status, render);
    TextIsRead(fields, "message", message, render);
    TextIsRead(fields, "code", code, render);
  }

  /**
   * What the caller of a request that did not fail is given: the data of an
   * envelope whose status is success to the letter, and anything else as it is.
   */
  lemma {:induction false} PayloadsAre(fields: seq<(string, Json)>, render: Renderer)
    requires LacksErrors(fields) && !SaysUnsuccessful(fields, render)
    ensures forall i: nat, v ::
      SaysText(fields, "status", "success") && IsLast(fields, i, "data", v) ==>
        Classify(Object(fields), render) == Payload(v)
    ensures !SaysText(fields, "status", "success") || Lacks(fields, "data") ==>
      Classify(Object(fields), render) == Payload(Object(fields))
  {
    hide Get, Has, SaysUnsuccessful, IsSuccess, Lacks, FailureInObject;
    WhichObjectsFail(fields, render);
    NoFieldIsNull(fields, "data");
    if SaysText(fields, "status", "success") {
      TextIsRead(fields, "status", "success", render);
      forall i: nat, v | IsLast(fields, i, "data", v) ensures Classify(Object(fields), render) == Payload(v) {
        LastFieldWins(fields, i, "data", v);
      }
    } else {
      SuccessIsSaid(fields);
    }
  }

  lemma {:induction false} SuccessIsSaid(fields: seq<(string, Json)>)
    ensures Get(Object(fields), "status") == Text("success") ==> SaysText(fields, "status", "success")
  {
    hide Get, Has, Lacks;
    NoFieldIsNull(fields, "status");
    if !Lacks(fields, "status") {
      var i := HasLast(fields, "status");
      LastFieldWins(fields, i, "status", fields[i].1);
    }
  }

  /** The failure a body is classified by: an object's own, or an array's first. */
  function FailureIn(body: Json, render: Renderer): Maybe<Failure>
  {
    match body
    case Array(items) => FailureInArray(items, render)
    case Object(_) => FailureInObject(body, render)
    case _ => None
  }

  /** The refusal speaks of the caller's address, in whatever casing. */
  predicate NamesAnAddress(reason: string)
  {
    Mentions(reason, "invalid ip") || Mentions(reason, "not whitelisted")
  }

  lemma {:induction false} AddressesAreNamed(f: Failure)
    ensures IsIP(f) <==> NamesAnAddress(f.reason)
  {
    hide Lower, Contains, Mentions;
    AnyCasing(f.reason, "invalid ip");
    AnyCasing(f.reason, "not whitelisted");
    LongerPhrase(Lower(f.reason));
  }

  /** The third phrase looked for holds the second. */
  lemma LongerPhrase(s: string)
    ensures Contains(s, "ip not whitelisted") ==> Contains(s, "not whitelisted")
  {
    if Contains(s, "ip not whitelisted") {
      var i: nat :| i <= |s| && IsAt(s, "ip not whitelisted", i);
      var whole := s[i..i + 18];
      assert whole[3..] == s[i + 3..i + 3 + 15];
      assert "ip not whitelisted"[3..] == "not whitelisted";
      assert IsAt(s, "not whitelisted", i + 3);
    }
  }

  /**
   * Exactly which class a body raises: the rate limit by its code or type, an
   * address refusal by its words alone, and a plain refusal otherwise. No code
   * but the rate limit's decides anything: another in its place changes none.
   */
  lemma {:induction false} AddressRefusals(body: Json, f: Failure, code: string, render: Renderer)
    ensures
      var found, rate := FailureIn(body, render) == Some(f), f.code == "DH-904" || f.errorType == "Rate_Limit";
      && (Classify(body, render) == Raised(RateLimited(f)) <==> found && rate)
      && (Classify(body, render) == Raised(IPNotWhitelisted(f)) <==> found && !rate && NamesAnAddress(f.reason))
      && (Classify(body, render) == Raised(DhanApiError(f)) <==> found && !rate && !NamesAnAddress(f.reason))
      && (!rate && code != "DH-904" ==>
            (RaiseFor(f.(code := code)).IPNotWhitelisted? <==> RaiseFor(f).IPNotWhitelisted?))
  {
    hide FailureInArray, FailureInObject, IsIP, NamesAnAddress;
    AddressesAreNamed(f);
    AddressesAreNamed(f.(code := code));
  }
}
