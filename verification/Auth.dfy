/** src/auth/auth.cpp: the messages of sections 10 of RFC 4253 and 5, 8 of RFC 4252 that the client uses. */
module Auth {
  import opened Prelude
  import opened Encoding
  import opened Messages

  const USERAUTH: SshString := Ascii("ssh-userauth")
  const CONNECTION: SshString := Ascii("ssh-connection")

  function ServiceRequest(): bytes {
    [SERVICE_REQUEST] + Str(USERAUTH)
  }

  const NONE: SshString := Ascii("none")
  const PASSWORD: SshString := Ascii("password")

  function NoneRequest(username: SshString): bytes {
    [USERAUTH_REQUEST] + Strings([username, CONNECTION, NONE])
  }

  function PasswordRequest(username: SshString, password: SshString): bytes {
    [USERAUTH_REQUEST] + Strings([username, CONNECTION, PASSWORD]) + ([0] + Str(password))
  }

  /** What both requests begin with. */
  method AppendMethod(username: bytes, name: SshString) returns (r: Result<bytes>)
    ensures r.Success? <==> |username| < TWO_32
    ensures r.Success? ==>
      r.value == [USERAUTH_REQUEST] + Strings([username, CONNECTION, name]) && r.value[0] == USERAUTH_REQUEST
  {
    var payload :- AppendString([USERAUTH_REQUEST], username);
    payload := AppendShortString(payload, CONNECTION);
    payload := AppendShortString(payload, name);
    ThreeStrings(username, CONNECTION, name);
    assert payload == [USERAUTH_REQUEST] + ((Str(username) + Str(CONNECTION)) + Str(name));
    return Success(payload);
  }

  predicate IsServiceAccept(p: bytes) {
    p == [SERVICE_ACCEPT] + Str(USERAUTH)
  }

  /** A list of methods and a flag, and nothing else. */
  predicate IsAuthFailure(p: bytes) {
    |p| > 0 && p[0] == USERAUTH_FAILURE && StringAt(p, 1).Success? && StringAt(p, 1).value.1 + 1 == |p|
  }

  lemma AuthFailurePrinted(methods: SshString, flag: byte)
    ensures IsAuthFailure([51] + (Str(methods) + [flag]))
  {
    var p := [51] + (Str(methods) + [flag]);
    assert p[1..1 + |Str(methods)|] == Str(methods);
    StringAtStr(p, 1, 1 + |Str(methods)|, methods);
  }

  lemma AuthFailureSplit(p: bytes)
    requires IsAuthFailure(p)
    ensures p == [51] + (Str(StringAt(p, 1).value.0) + [p[|p| - 1]])
  {
    StringAtSound(p, 1);
    HeadTail(p);
  }

  /** A refusal is exactly the print of a list of methods and a flag. */
  lemma AuthFailureRead(p: bytes)
    ensures IsAuthFailure(p) <==> exists methods: SshString, flag: byte :: p == [51] + (Str(methods) + [flag])
  {
    if IsAuthFailure(p) {
      AuthFailureSplit(p);
    }
    if methods: SshString, flag: byte :| p == [51] + (Str(methods) + [flag]) {
      AuthFailurePrinted(methods, flag);
    }
  }

  method CreateServiceRequest() returns (payload: bytes)
    ensures payload == ServiceRequest() == [5] + Str(Ascii("ssh-userauth"))
  {
    payload := AppendShortString([SERVICE_REQUEST], USERAUTH);
  }

  method ValidateServiceAccept(payload: bytes) returns (r: Result<()>)
    ensures r.Success? <==> IsServiceAccept(payload)
    ensures r.Success? <==> payload == [6] + Str(Ascii("ssh-userauth"))
    ensures r.Success? ==> payload != [] && payload[0] == SERVICE_ACCEPT
  {
    if payload == [] {
      return Failure;
    }
    if payload[0] != SERVICE_ACCEPT {
      return Failure;
    }
    if payload == [SERVICE_ACCEPT] + Str(USERAUTH) {
      assert payload[1..|payload|] == Str(USERAUTH);
      StringAtStr(payload, 1, |payload|, USERAUTH);
    }
    var serviceName, position :- ReadString(payload, 1);
    StringAtSound(payload, 1);
    if serviceName != USERAUTH {
      return Failure;
    }
    if position != |payload| {
      return Failure;
    }
    HeadTail(payload);
    return Success(());
  }

  method CreateNoneAuthRequest(username: bytes) returns (r: Result<bytes>)
    ensures r.Success? <==> |username| < TWO_32
    ensures r.Success? ==> r.value == NoneRequest(username) && r.value[0] == USERAUTH_REQUEST
    ensures r.Success? ==>
      r.value == [50] + (Str(username) + Str(Ascii("ssh-connection")) + Str(Ascii("none")))
  {
    r := AppendMethod(username, NONE);
    if r.Success? {
      ThreeStrings(username, CONNECTION, NONE);
    }
  }

  method ParseAuthFailure(payload: bytes) returns (r: Result<(bytes, bool)>)
    ensures r.Success? <==> IsAuthFailure(payload)
    ensures r.Success? ==> payload != [] && payload[0] == USERAUTH_FAILURE
    ensures r.Success? <==> exists methods: SshString, flag: byte :: payload == [51] + (Str(methods) + [flag])
    ensures r.Success? ==>
      |r.value.0| < TWO_32 && payload == [51] + (Str(r.value.0) + [payload[|payload| - 1]])
    ensures r.Success? ==> r.value == (StringAt(payload, 1).value.0, payload[|payload| - 1] != 0)
  {
    AuthFailureRead(payload);
    if payload == [] {
      return Failure;
    }
    if payload[0] != USERAUTH_FAILURE {
      return Failure;
    }
    var methods, position :- ReadString(payload, 1);
    if |payload| - position != 1 {
      return Failure;
    }
    AuthFailureSplit(payload);
    var partialSuccess := payload[position] != 0;
    return Success((methods, partialSuccess));
  }

  method CreatePasswordAuthRequest(username: bytes, password: bytes) returns (r: Result<bytes>)
    ensures r.Success? <==> |username| < TWO_32 && |password| < TWO_32
    ensures r.Success? ==> r.value == PasswordRequest(username, password) && r.value[0] == USERAUTH_REQUEST
    ensures r.Success? ==>
      r.value == [50] + (Str(username) + Str(Ascii("ssh-connection")) + Str(Ascii("password")))
                 + ([0] + Str(password))
  {
    var payload :- AppendMethod(username, PASSWORD);
    ghost var head := payload;
    payload := payload + [0];
    payload :- AppendString(payload, password);
    assert payload == head + ([0] + Str(password));
    ThreeStrings(username, CONNECTION, PASSWORD);
    return Success(payload);
  }

  method ValidateAuthSuccess(payload: bytes) returns (r: Result<()>)
    ensures r.Success? <==> payload == [USERAUTH_SUCCESS] == [52]
  {
    if |payload| != 1 || payload[0] != USERAUTH_SUCCESS {
      return Failure;
    }
    return Success(());
  }
}
