/** The name of the lock taken around the check-and-insert: the context type, the platform
    type, the recipient and the sender, joined by '-'. When a name is missing the source
    substitutes the current clock ticks; those values are parameters here. */
module InsertKey {
  import opened Messages

  /** The recipient of the request, or the fallback when there is none. */
  function ToUserNameOr(request: Option<RequestMessage>, fallback: string): (name: string)
    ensures request.Some? && request.value.ToUserName.Some? ==> name == request.value.ToUserName.value
    // No request, or a request without a recipient: the fallback.
    ensures !(request.Some? && request.value.ToUserName.Some?) ==> name == fallback
  {
    if request.Some? && request.value.ToUserName.Some? then request.value.ToUserName.value else fallback
  }

  /** The sender of the request, or the fallback when there is none. */
  function OpenIdOr(request: Option<RequestMessage>, fallback: string): (name: string)
    ensures request.Some? && request.value.FromUserName.Some? ==> name == request.value.FromUserName.value
    // No request, or a request without a sender: the fallback.
    ensures !(request.Some? && request.value.FromUserName.Some?) ==> name == fallback
  {
    var id := OpenId(request);
    if id.Some? then id.value else fallback
  }

  function Join(a: string, b: string): string
  {
    a + "-" + b
  }

  /** `GetInsertMessageKey`. */
  function InsertMessageKey(contextType: string, platformType: string, request: Option<RequestMessage>,
                            toUserNameFallback: string, openIdFallback: string): (key: string)
    ensures |key| == |contextType| + |platformType| + 3 +
                     |ToUserNameOr(request, toUserNameFallback)| + |OpenIdOr(request, openIdFallback)|
    ensures key[..|contextType|] == contextType
  {
    Join(Join(Join(contextType, platformType), ToUserNameOr(request, toUserNameFallback)),
         OpenIdOr(request, openIdFallback))
  }

  /** Splitting at the first '-' recovers both halves when the first half has no '-'. */
  lemma JoinSplits(a1: string, b1: string, a2: string, b2: string)
    requires '-' !in a1 && '-' !in a2
    requires Join(a1, b1) == Join(a2, b2)
    ensures a1 == a2 && b1 == b2
  {
    var j1, j2 := Join(a1, b1), Join(a2, b2);
    assert |a1| == |a2| by {
      assert j1[|a1|] == '-' && j2[|a2|] == '-';
      assert forall i :: 0 <= i < |a1| ==> j1[i] != '-';
      assert forall i :: 0 <= i < |a2| ==> j2[i] != '-';
    }
    assert a1 == j1[..|a1|] == j2[..|a2|] == a2;
    assert b1 == j1[|a1| + 1..] == j2[|a2| + 1..] == b2;
  }

  /** Joining with a fixed prefix is injective in what follows. */
  lemma JoinPrefix(p: string, b1: string, b2: string)
    requires Join(p, b1) == Join(p, b2)
    ensures b1 == b2
  {
    assert b1 == Join(p, b1)[|p| + 1..];
    assert b2 == Join(p, b2)[|p| + 1..];
  }

  /** Two handlers of the same context and platform type share a lock exactly when they name
      the same recipient and sender, provided the recipients contain no '-'. */
  lemma KeyIdentifiesConversation(contextType: string, platformType: string,
                                  req1: Option<RequestMessage>, to1: string, open1: string,
                                  req2: Option<RequestMessage>, to2: string, open2: string)
    requires '-' !in ToUserNameOr(req1, to1) && '-' !in ToUserNameOr(req2, to2)
    ensures InsertMessageKey(contextType, platformType, req1, to1, open1) ==
            InsertMessageKey(contextType, platformType, req2, to2, open2)
            <==>
            ToUserNameOr(req1, to1) == ToUserNameOr(req2, to2) && OpenIdOr(req1, open1) == OpenIdOr(req2, open2)
  {
    var p := Join(contextType, platformType);
    var t1, t2 := ToUserNameOr(req1, to1), ToUserNameOr(req2, to2);
    var o1, o2 := OpenIdOr(req1, open1), OpenIdOr(req2, open2);
    if Join(Join(p, t1), o1) == Join(Join(p, t2), o2) {
      assert Join(Join(p, t1), o1) == p + "-" + Join(t1, o1);
      assert Join(Join(p, t2), o2) == p + "-" + Join(t2, o2);
      JoinPrefix(p, Join(t1, o1), Join(t2, o2));
      JoinSplits(t1, o1, t2, o2);
    }
  }

  /** Without that proviso the key is ambiguous: a '-' inside a name can move the border. */
  lemma DashInNameCollides()
    ensures InsertMessageKey("C", "P", Some(RequestMessage(0, 0, Text, Some("a-b"), Some("c"))), "", "") ==
            InsertMessageKey("C", "P", Some(RequestMessage(0, 0, Text, Some("a"), Some("b-c"))), "", "")
  {
  }
}
