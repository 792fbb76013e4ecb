/** What a server reads from a client, and which of it ends the connection. */
module ClientInput {

  /** What `receive` returned for a client: its result, the thread's error code, the bytes read. */
  datatype Input = Input(read: int, error: int, data: string)

  /** What `strcmp` sees of a buffer: the characters before the first NUL. */
  function CString(s: string): (r: string)
    ensures r <= s && '\0' !in r
    ensures |r| < |s| ==> s[|r|] == '\0'
  {
    if s == "" || s[0] == '\0' then "" else [s[0]] + CString(s[1..])
  }

  /** The buffer holds "quit", alone or followed by a NUL and anything. */
  predicate SaysQuit(data: string) {
    "quit" <= data && (|data| > 4 ==> data[4] == '\0')
  }

  lemma QuitIsRecognised(data: string)
    ensures CString(data) == "quit" <==> SaysQuit(data)
  {
    var r := CString(data);
    assert forall k :: 0 <= k < |r| ==> r[k] == data[k];
    assert SaysQuit(data) ==> forall k :: 0 <= k < 4 ==> data[k] == "quit"[k];
  }

  /** The peer says goodbye. */
  predicate Quits(input: Input) {
    input.read > 0 && SaysQuit(input.data)
  }

  /** The connection is lost: the network is down or unreachable, or the connection was dropped, aborted
      or reset. */
  predicate Loses(input: Input) {
    input.read <= 0 && input.error in {100, 101, 102, 103, 104}
  }
}
