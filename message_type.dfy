/** MessageTypeEnum: the role a chat-history row records, and the lookup
    from the stored value back to the constant. */
module MessageType {
  import opened Common

  datatype MessageTypeEnum = USER | AI | ERROR
  {
    /** The display text. */
    function Text(): string
    {
      match this
      case USER => "用户消息"
      case AI => "AI 消息"
      case ERROR => "错误消息"
    }

    /** The stored value. */
    function Value(): string
    {
      match this
      case USER => "user"
      case AI => "ai"
      case ERROR => "error"
    }
  }

  /** `values()`, in declaration order. */
  const Values: seq<MessageTypeEnum> := [USER, AI, ERROR]

  /** hutool `ObjUtil.isEmpty` on a String: null or of length zero. */
  predicate IsEmptyValue(value: Option<string>)
  {
    value.None? || value.value == ""
  }

  /** The loop over `values()` from index n: the first constant whose value
      equals `v`, case-sensitively. */
  function FindByValue(v: string, n: nat): (r: Option<MessageTypeEnum>)
    requires n <= |Values|
    ensures r.Some? ==> r.value.Value() == v && exists k :: n <= k < |Values| && Values[k] == r.value
    ensures r.None? ==> forall k :: n <= k < |Values| ==> Values[k].Value() != v
    decreases |Values| - n
  {
    if n == |Values| then None
    else if Values[n].Value() == v then Some(Values[n])
    else FindByValue(v, n + 1)
  }

  /** `getEnumByValue`. */
  function GetEnumByValue(value: Option<string>): (r: Option<MessageTypeEnum>)
    ensures r.Some? ==> value == Some(r.value.Value())
  {
    if IsEmptyValue(value) then None else FindByValue(value.value, 0)
  }

  /** Every constant is listed by `values()`. */
  lemma ValuesComplete(e: MessageTypeEnum)
    ensures exists k :: 0 <= k < |Values| && Values[k] == e
  {
    assert Values[0] == USER && Values[1] == AI && Values[2] == ERROR;
  }

  /** The values are distinct, so the lookup inverts `getValue()`. */
  lemma GetEnumByValueRoundTrip(e: MessageTypeEnum)
    ensures GetEnumByValue(Some(e.Value())) == Some(e)
  {
    ValuesComplete(e);
    var r := GetEnumByValue(Some(e.Value()));
    assert r.Some?;
    assert r.value.Value() == e.Value();
  }

  /** A lookup succeeds exactly for the three stored values; null, the empty
      string and everything else give null. */
  lemma GetEnumByValueNullIff(value: Option<string>)
    ensures GetEnumByValue(value).None? <==>
      value.None? || (value.value != "user" && value.value != "ai" && value.value != "error")
  {
    if value.Some? && value.value in {"user", "ai", "error"} {
      var e := if value.value == "user" then USER else if value.value == "ai" then AI else ERROR;
      GetEnumByValueRoundTrip(e);
    } else if value.Some? && value.value != "" {
      assert Values[0] == USER && Values[1] == AI && Values[2] == ERROR;
    }
  }

  /** Matching is case-sensitive: the constant names and upper-case variants
      are not values. */
  lemma GetEnumByValueCaseSensitive()
    ensures GetEnumByValue(Some("USER")) == None
    ensures GetEnumByValue(Some("AI")) == None
    ensures GetEnumByValue(Some("Error")) == None
  {
    GetEnumByValueNullIff(Some("USER"));
    GetEnumByValueNullIff(Some("AI"));
    GetEnumByValueNullIff(Some("Error"));
  }
}
