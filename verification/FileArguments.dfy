/** The argument text and the result text of file transfers. */
module FileArguments {
  import opened Wrappers
  import opened CStrings
  import opened Decimal
  import opened AgentTable

  /** The message of `datainfo_server_send_file` and `datainfo_server_recv_file`. */
  function Build(callbackName: string, fileName: string): string {
    callbackName + ";" + fileName
  }

  function FirstToken(s: string): Option<string> {
    if HasToken(s, ';') then Some(Token(s, ';')) else None
  }

  /** The IMPORT and EXPORT branches of the request handler take the first two tokens. */
  method Parse(mem: array<char>, ghost msg: string) returns (callbackName: Option<string>, fileName: Option<string>)
    requires Holds(mem[..], 0, msg)
    modifies mem
    ensures callbackName == FirstToken(msg) && fileName == FirstToken(Rest(msg, ';'))
  {
    hide Holds, Cut, Skip, TokenEnd, HasToken, Token, Rest;
    callbackName, fileName := None, None;
    var p, save := NextToken(mem, 0, ';', msg);
    if p.Some? {
      var name := ReadString(mem, p.value, Token(msg, ';'));
      callbackName := Some(name);
    }
    p, save := NextToken(mem, save, ';', Rest(msg, ';'));
    if p.Some? {
      var name := ReadString(mem, p.value, Token(Rest(msg, ';'), ';'));
      fileName := Some(name);
    }
  }

  /** Both names arrive exactly if they are non-empty and free of ';'. */
  lemma ArgumentsRoundTrip(callbackName: string, fileName: string)
    ensures var msg := Build(callbackName, fileName);
      (FirstToken(msg) == Some(callbackName) && FirstToken(Rest(msg, ';')) == Some(fileName))
      <==> callbackName != "" && fileName != "" && ';' !in callbackName && ';' !in fileName
  {
    var msg := Build(callbackName, fileName);
    TokenClean(msg, ';');
    TokenClean(Rest(msg, ';'), ';');
    hide Skip, TokenEnd;
    if callbackName != "" && fileName != "" && ';' !in callbackName && ';' !in fileName {
      assert msg == callbackName + ([';'] + fileName);
      TokenAt(callbackName, [';'] + fileName, ';');
      assert ([';'] + fileName)[1..] == fileName && fileName + "" == fileName;
      TokenAt(fileName, "", ';');
    }
  }

  /** The server reads back every code that an agent's callback returns; a reply without a callback result
      reads as 0, the code of success. */
  lemma ResultRoundTrip(code: int)
    ensures Atoi(FormatInt(code)) == code
    ensures Atoi("") == 0
  {
    AtoiFormat(code, "");
    assert FormatInt(code) + "" == FormatInt(code);
  }
}
