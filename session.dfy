/** Per-user accumulation of translated text: a process-wide map from user id
    to the text translated so far, grown by one symbol per submitted cell. */
module Session {
  import opened Braille

  /** The user id, cell and mode a request resolves to when a field is absent. */
  const DEFAULT_USER: string := "default"
  const DEFAULT_BITS: string := "000000"
  const DEFAULT_MODE: string := "UEB"

  datatype Option<T> = None | Some(value: T)

  /** A submission as it arrives: each field may be absent. */
  datatype Request = Request(userId: Option<string>, bits: Option<string>, mode: Option<string>)

  /** A submission with every field resolved. */
  datatype Submission = Submission(user: string, bits: string, mode: string)

  /** The answer to a submission: the symbol just translated and the user's
      whole accumulated text after appending it. */
  datatype Response = Response(translated: string, fullText: string)

  /** A field's value, or the default when the field is absent. */
  function OrDefault(field: Option<string>, default: string): string {
    match field
    case Some(v) => v
    case None => default
  }

  /** Resolves a request: absent fields take their defaults; present fields,
      even empty ones, are kept as given. */
  function Resolve(req: Request): (s: Submission)
    ensures req.userId.Some? ==> s.user == req.userId.value
    ensures req.userId.None? ==> s.user == DEFAULT_USER
    ensures req.bits.Some? ==> s.bits == req.bits.value
    ensures req.bits.None? ==> s.bits == DEFAULT_BITS
    ensures req.mode.Some? ==> s.mode == req.mode.value
    ensures req.mode.None? ==> s.mode == DEFAULT_MODE
  {
    Submission(OrDefault(req.userId, DEFAULT_USER), OrDefault(req.bits, DEFAULT_BITS),
               OrDefault(req.mode, DEFAULT_MODE))
  }

  /** A request with no fields at all appends one blank (a space) to the
      "default" user's text. */
  lemma EmptyRequestIsBlank()
    ensures Resolve(Request(None, None, None)).user == "default"
    ensures TranslateCell(Resolve(Request(None, None, None)).bits,
                          Resolve(Request(None, None, None)).mode) == " "
  {
    ModeExamples();
  }

  /** The text stored for a user; a user never seen has the empty text. */
  function TextOf(buffers: map<string, string>, user: string): string {
    if user in buffers then buffers[user] else ""
  }

  /** The store after appending `token` to `user`'s text, creating the entry
      when the user has none. */
  function Put(buffers: map<string, string>, user: string, token: string): (r: map<string, string>)
    ensures r.Keys == buffers.Keys + {user}
    ensures TextOf(r, user) == TextOf(buffers, user) + token
    ensures forall u :: u != user ==> TextOf(r, u) == TextOf(buffers, u)
  {
    buffers[user := TextOf(buffers, user) + token]
  }

  /** The symbol a submission translates to. */
  function Token(sub: Submission): string {
    TranslateCell(sub.bits, sub.mode)
  }

  /** The store after a sequence of submissions, taken in order. */
  function Replay(buffers: map<string, string>, subs: seq<Submission>): map<string, string>
    decreases |subs|
  {
    if subs == [] then buffers
    else Replay(Put(buffers, subs[0].user, Token(subs[0])), subs[1..])
  }

  /** The symbols the submissions of `user` translate to, concatenated in
      submission order with no separator. */
  function TokensFor(user: string, subs: seq<Submission>): string
    decreases |subs|
  {
    if subs == [] then ""
    else (if subs[0].user == user then Token(subs[0]) else "")
         + TokensFor(user, subs[1..])
  }

  /** The number of submissions of `user`. */
  function CountFor(user: string, subs: seq<Submission>): nat
    decreases |subs|
  {
    if subs == [] then 0
    else (if subs[0].user == user then 1 else 0) + CountFor(user, subs[1..])
  }

  /** Order-preserving accumulation: after any sequence of submissions, in
      which other users' submissions may be interleaved, a user's text is the
      text it had before followed by the symbols of that user's submissions,
      in submission order. */
  lemma {:induction false} ReplayAccumulates(buffers: map<string, string>, subs: seq<Submission>, user: string)
    ensures TextOf(Replay(buffers, subs), user) == TextOf(buffers, user) + TokensFor(user, subs)
    decreases |subs|
  {
    if subs != [] {
      var token := Token(subs[0]);
      var next := Put(buffers, subs[0].user, token);
      var mine := if subs[0].user == user then token else "";
      assert TextOf(next, user) == TextOf(buffers, user) + mine;
      assert TokensFor(user, subs) == mine + TokensFor(user, subs[1..]);
      calc {
        TextOf(Replay(buffers, subs), user);
        TextOf(Replay(next, subs[1..]), user);
        { ReplayAccumulates(next, subs[1..], user); }
        (TextOf(buffers, user) + mine) + TokensFor(user, subs[1..]);
        TextOf(buffers, user) + (mine + TokensFor(user, subs[1..]));
      }
    }
  }

  /** Each submission of `user` adds exactly one character to that user's text. */
  lemma {:induction false} TokensLength(user: string, subs: seq<Submission>)
    ensures |TokensFor(user, subs)| == CountFor(user, subs)
    decreases |subs|
  {
    if subs != [] {
      TokensLength(user, subs[1..]);
    }
  }

  /** After any sequence of submissions a user's text has grown by exactly
      as many characters as that user made submissions. */
  lemma ReplayLength(buffers: map<string, string>, subs: seq<Submission>, user: string)
    ensures |TextOf(Replay(buffers, subs), user)| == |TextOf(buffers, user)| + CountFor(user, subs)
  {
    ReplayAccumulates(buffers, subs, user);
    TokensLength(user, subs);
  }

  /** Replaying one more submission is one more `Put` on the replayed store:
      a run of successive appends against the store is a replay of the
      submissions in the order they were made. */
  lemma {:induction false} ReplaySnoc(buffers: map<string, string>, subs: seq<Submission>, sub: Submission)
    ensures Replay(buffers, subs + [sub]) == Put(Replay(buffers, subs), sub.user, Token(sub))
    decreases |subs|
  {
    if subs == [] {
      assert [] + [sub] == [sub];
    } else {
      var next := Put(buffers, subs[0].user, Token(subs[0]));
      assert (subs + [sub])[0] == subs[0];
      assert (subs + [sub])[1..] == subs[1..] + [sub];
      ReplaySnoc(next, subs[1..], sub);
    }
  }

  /** A user none of whose submissions appear keeps the text it had. */
  lemma ReplayIndependent(buffers: map<string, string>, subs: seq<Submission>, user: string)
    requires forall i :: 0 <= i < |subs| ==> subs[i].user != user
    ensures TextOf(Replay(buffers, subs), user) == TextOf(buffers, user)
  {
    ReplayAccumulates(buffers, subs, user);
    NoTokensFor(user, subs);
  }

  /** Submissions all made by other users contribute no symbol to `user`. */
  lemma {:induction false} NoTokensFor(user: string, subs: seq<Submission>)
    requires forall i :: 0 <= i < |subs| ==> subs[i].user != user
    ensures TokensFor(user, subs) == ""
    decreases |subs|
  {
    if subs != [] {
      NoTokensFor(user, subs[1..]);
    }
  }

  /** The process-wide store of accumulated text, keyed by user id. */
  class UserBuffers {
    var buffers: map<string, string>

    /** The store starts empty. */
    constructor ()
      ensures buffers == map[]
    {
      buffers := map[];
    }

    /** A user's accumulated text; the empty text for a user never seen. */
    function Text(user: string): string
      reads this
    {
      TextOf(buffers, user)
    }

    /** Translates one cell and appends the symbol to the user's text,
        creating the user's entry on first use. Returns the symbol and the
        user's whole text after the append; every other user's text is
        untouched. */
    method Append(user: string, bits: string, mode: string) returns (resp: Response)
      modifies this
      ensures buffers == Put(old(buffers), user, TranslateCell(bits, mode))
      ensures resp.translated == TranslateCell(bits, mode)
      ensures resp.fullText == Text(user) == old(Text(user)) + resp.translated
      ensures |Text(user)| == |old(Text(user))| + 1
      ensures forall u :: u != user ==> Text(u) == old(Text(u))
    {
      var token := TranslateCell(bits, mode);
      buffers := buffers[user := Text(user) + token];
      resp := Response(token, buffers[user]);
    }

    /** Handles one submission: resolves absent fields to their defaults,
        then appends as `Append` does. */
    method Submit(req: Request) returns (resp: Response)
      modifies this
      ensures buffers == Replay(old(buffers), [Resolve(req)])
      ensures resp.translated == TranslateCell(Resolve(req).bits, Resolve(req).mode)
      ensures resp.fullText == Text(Resolve(req).user)
      ensures forall u :: u != Resolve(req).user ==> Text(u) == old(Text(u))
    {
      var sub := Resolve(req);
      resp := Append(sub.user, sub.bits, sub.mode);
    }

    /** A run of successive submissions, handled one `Append` at a time in
        the order given: the store ends as their replay, and every user's
        text is its old text followed by that user's symbols, in order. */
    method AppendAll(subs: seq<Submission>)
      modifies this
      ensures buffers == Replay(old(buffers), subs)
      ensures forall u :: Text(u) == old(Text(u)) + TokensFor(u, subs)
    {
      var i := 0;
      while i < |subs|
        invariant 0 <= i <= |subs|
        invariant buffers == Replay(old(buffers), subs[..i])
      {
        ReplaySnoc(old(buffers), subs[..i], subs[i]);
        assert subs[..i + 1] == subs[..i] + [subs[i]];
        var _ := Append(subs[i].user, subs[i].bits, subs[i].mode);
        i := i + 1;
      }
      assert subs[..i] == subs;
      forall u ensures Text(u) == old(Text(u)) + TokensFor(u, subs) {
        ReplayAccumulates(old(buffers), subs, u);
      }
    }
  }

  /** Three users submitting against a fresh store: each gets the symbol
      of its cell and its own text, unaffected by the others. */
  method Scenario() returns (r1: Response, r2: Response, r3: Response, r4: Response)
    ensures r1 == Response("a", "a") && r2 == Response("b", "ab")
    ensures r3 == Response("1", "1") && r4 == Response("?", "?")
  {
    CellExamples();
    BlankAndUnknownExamples();
    assert "bob" != "alice" by { assert |"bob"| != |"alice"|; }
    assert "carol" != "bob" by { assert |"carol"| != |"bob"|; }
    assert "carol" != "alice" by { assert "carol"[0] != "alice"[0]; }
    var store := new UserBuffers();
    r1 := store.Append("alice", "100000", "UEB");
    assert r1 == Response("a", "a");
    r2 := store.Append("alice", "110000", "UEB");
    assert r2 == Response("b", "ab");
    assert store.Text("bob") == "" && store.Text("carol") == "";
    r3 := store.Append("bob", "100000", "NEMETH");
    assert store.Text("carol") == "";
    r4 := store.Append("carol", "999999", "UEB");
  }
}
