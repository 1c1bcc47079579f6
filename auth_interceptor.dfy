/**
  The bearer-token check every gRPC call passes through (AuthServerInterceptor).
  Metadata is a list of (name, value) entries with lower-case names; the
  interceptor's effects on the call are returned as a decision.
 */
module AuthInterceptor {
  import opened Wrappers

  type Metadata = seq<(string, string)>

  const AUTHORIZATION: string := "authorization"
  const AUTH_CHECKED: string := "x-authenticated"

  /** grpc.auth.token when the property is not set. */
  const DEFAULT_VALID_TOKEN: string := "valid-token"

  datatype StatusCode = UNAUTHENTICATED

  datatype AuthDecision =
    /** call.close(status, trailers); the handler is not started. */
    | CloseCall(status: StatusCode, description: string, trailers: Metadata)
    /** next.startCall with the forwarding call that marks its response headers. */
    | StartCall

  /** Metadata.get(key): the value of the last entry with that name, if any. */
  function Get(headers: Metadata, name: string): (v: Option<string>)
    ensures v.None? <==> forall i :: 0 <= i < |headers| ==> headers[i].0 != name
    ensures v.Some? ==> exists i :: 0 <= i < |headers| && headers[i] == (name, v.value)
                                   && forall j :: i < j < |headers| ==> headers[j].0 != name
  {
    if headers == [] then None
    else if headers[|headers| - 1].0 == name then Some(headers[|headers| - 1].1)
    else Get(headers[..|headers| - 1], name)
  }

  /** interceptCall: missing token, accepted token, or any other value. */
  function InterceptCall(headers: Metadata, validToken: string): (d: AuthDecision)
    ensures d.StartCall? <==> Get(headers, AUTHORIZATION) == Some("Bearer " + validToken)
    ensures d.CloseCall? ==> d.status == UNAUTHENTICATED && d.trailers == []
    ensures d.CloseCall? ==> (d.description == "Missing token" <==> Get(headers, AUTHORIZATION).None?)
    ensures d.CloseCall? && Get(headers, AUTHORIZATION).Some? ==> d.description == "Invalid token"
  {
    var auth := Get(headers, AUTHORIZATION);
    if auth.None? then CloseCall(UNAUTHENTICATED, "Missing token", [])
    else if "Bearer " + validToken == auth.value then StartCall
    else CloseCall(UNAUTHENTICATED, "Invalid token", [])
  }

  /** sendHeaders of the forwarding call: the handler's headers, marked as authenticated. */
  function AuthenticatedResponseHeaders(responseHeaders: Metadata): (h: Metadata)
    ensures Get(h, AUTH_CHECKED) == Some("true")
    ensures |h| == |responseHeaders| + 1 && h[..|responseHeaders|] == responseHeaders
  {
    responseHeaders + [(AUTH_CHECKED, "true")]
  }

  /** With the default configuration, "Bearer valid-token" starts the call. */
  lemma DefaultTokenAccepted(headers: Metadata)
    requires Get(headers, AUTHORIZATION) == Some("Bearer valid-token")
    ensures InterceptCall(headers, DEFAULT_VALID_TOKEN) == StartCall
  {
  }

  /** The prefix is compared exactly: another case or spacing is an invalid token. */
  lemma PrefixIsExact(token: string)
    ensures InterceptCall([(AUTHORIZATION, "bearer " + token)], token) == CloseCall(UNAUTHENTICATED, "Invalid token", [])
    ensures InterceptCall([(AUTHORIZATION, "Bearer  " + token)], token) == CloseCall(UNAUTHENTICATED, "Invalid token", [])
    ensures InterceptCall([(AUTHORIZATION, token)], token) == CloseCall(UNAUTHENTICATED, "Invalid token", [])
  {
    var h1 := [(AUTHORIZATION, "bearer " + token)];
    assert Get(h1, AUTHORIZATION) == Some("bearer " + token);
    assert ("Bearer " + token)[0] != ("bearer " + token)[0];
    var h2 := [(AUTHORIZATION, "Bearer  " + token)];
    assert Get(h2, AUTHORIZATION) == Some("Bearer  " + token);
    assert |"Bearer " + token| != |"Bearer  " + token|;
    var h3 := [(AUTHORIZATION, token)];
    assert Get(h3, AUTHORIZATION) == Some(token);
    assert |"Bearer " + token| != |token|;
  }
}
