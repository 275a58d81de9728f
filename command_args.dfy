/**
 * The `params` member of a request: a player id and the command words,
 * written out as `["<player>", ["<arg>", "<arg>", ...]]` by plain string
 * concatenation, with no escaping of any character.
 */
module Wire {

  datatype Option<T> = None | Some(value: T)

  /** `lmsCommandArgs`: one command for one player ("" for the server). */
  datatype CommandArgs = CommandArgs(PlayerId: string, Args: seq<string>)

  function Quote(w: string): string {
    "\"" + w + "\""
  }

  /** The quoted words, with `, ` between neighbours and nowhere else. */
  function QuotedList(args: seq<string>): (r: string)
    ensures args == [] <==> r == []
    ensures args != [] ==> r[0] == '"'
  {
    if |args| == 0 then ""
    else if |args| == 1 then Quote(args[0])
    else Quote(args[0]) + ", " + QuotedList(args[1..])
  }

  /** The text `MarshalJSON` produces for `ca`. */
  function Marshalled(ca: CommandArgs): string {
    "[\"" + ca.PlayerId + "\", [" + QuotedList(ca.Args) + "]]"
  }

  /** Appending a word to a non-empty list adds one separator and the quoted word. */
  lemma {:induction false} QuotedListSnoc(args: seq<string>, w: string)
    requires args != []
    ensures QuotedList(args + [w]) == QuotedList(args) + ", " + Quote(w)
  {
    if |args| > 1 {
      QuotedListSnoc(args[1..], w);
      assert (args + [w])[1..] == args[1..] + [w];
    } else {
      assert (args + [w])[1..] == [w];
    }
  }

  /**
   * `lmsCommandArgs.MarshalJSON`: accumulate the quoted words, adding the
   * separator whenever something has been accumulated already, then wrap
   * them with the player id. The error result is always nil and is dropped.
   */
  method MarshalJSON(ca: CommandArgs) returns (js: string)
    ensures js == Marshalled(ca)
  {
    var args := "";
    for i := 0 to |ca.Args|
      invariant args == QuotedList(ca.Args[..i])
    {
      if args != "" {
        args := args + ", ";
      }
      args := args + "\"" + ca.Args[i] + "\"";
      if i > 0 {
        QuotedListSnoc(ca.Args[..i], ca.Args[i]);
      }
      assert ca.Args[..i + 1] == ca.Args[..i] + [ca.Args[i]];
    }
    assert ca.Args[..|ca.Args|] == ca.Args;
    js := "[\"" + ca.PlayerId + "\", [" + args + "]]";
  }

  // A reader for the text above, to state what the writer preserves.

  /** Splits `s` at its first double quote: the text before it and after it. */
  function Field(s: string): (r: Option<(string, string)>)
    ensures r.Some? ==> s == r.value.0 + "\"" + r.value.1 && '"' !in r.value.0
    ensures r.None? ==> '"' !in s
  {
    if s == [] then None
    else if s[0] == '"' then Some(([], s[1..]))
    else match Field(s[1..]) {
      case None => None
      case Some((w, rest)) => Some(([s[0]] + w, rest))
    }
  }

  /** Reads `"w1", "w2", ..., "wn"]]` with n at least one. */
  function ParseWords(t: string): Option<seq<string>>
    decreases |t|
  {
    if |t| == 0 || t[0] != '"' then None
    else match Field(t[1..]) {
      case None => None
      case Some((w, r)) =>
        if r == "]]" then Some([w])
        else if |r| >= 2 && r[..2] == ", " then
          match ParseWords(r[2..]) {
            case None => None
            case Some(ws) => Some([w] + ws)
          }
        else None
    }
  }

  /** Reads the text `MarshalJSON` writes back into its two parts. */
  function Unmarshal(js: string): Option<CommandArgs> {
    if |js| < 2 || js[..2] != "[\"" then None
    else match Field(js[2..]) {
      case None => None
      case Some((pid, r)) =>
        if |r| < 3 || r[..3] != ", [" then None
        else if r[3..] == "]]" then Some(CommandArgs(pid, []))
        else match ParseWords(r[3..]) {
          case None => None
          case Some(args) => Some(CommandArgs(pid, args))
        }
    }
  }

  /** No double quote anywhere in the player id or the words. */
  predicate QuoteFree(ca: CommandArgs) {
    '"' !in ca.PlayerId && forall i | 0 <= i < |ca.Args| :: '"' !in ca.Args[i]
  }

  lemma {:induction false} FieldOfPlain(w: string, rest: string)
    requires '"' !in w
    ensures Field(w + "\"" + rest) == Some((w, rest))
  {
    if w != [] {
      FieldOfPlain(w[1..], rest);
      assert (w + "\"" + rest)[1..] == w[1..] + "\"" + rest;
      assert [w[0]] + w[1..] == w;
    } else {
      assert w + "\"" + rest == "\"" + rest;
    }
  }

  lemma {:induction false} ParseWordsOfList(args: seq<string>)
    requires args != []
    requires forall i | 0 <= i < |args| :: '"' !in args[i]
    ensures ParseWords(QuotedList(args) + "]]") == Some(args)
  {
    var t := QuotedList(args) + "]]";
    if |args| == 1 {
      assert t == "\"" + (args[0] + "\"" + "]]");
      FieldOfPlain(args[0], "]]");
      assert t[1..] == args[0] + "\"" + "]]";
      assert args == [args[0]];
    } else {
      var tail := ", " + QuotedList(args[1..]) + "]]";
      assert t == "\"" + (args[0] + "\"" + tail);
      assert t[1..] == args[0] + "\"" + tail;
      FieldOfPlain(args[0], tail);
      assert tail[..2] == ", " && tail != "]]";
      assert tail[2..] == QuotedList(args[1..]) + "]]";
      ParseWordsOfList(args[1..]);
      assert [args[0]] + args[1..] == args;
    }
  }

  /**
   * When no field holds a double quote, the written text reads back through
   * `Unmarshal`, which splits at quotes, as the same command.
   */
  lemma MarshalRoundTrip(ca: CommandArgs)
    requires QuoteFree(ca)
    ensures Unmarshal(Marshalled(ca)) == Some(ca)
  {
    var js := Marshalled(ca);
    var r := ", [" + QuotedList(ca.Args) + "]]";
    assert js == "[\"" + (ca.PlayerId + "\"" + r);
    assert js[..2] == "[\"";
    assert js[2..] == ca.PlayerId + "\"" + r;
    FieldOfPlain(ca.PlayerId, r);
    assert r[..3] == ", [";
    assert r[3..] == QuotedList(ca.Args) + "]]";
    if ca.Args != [] {
      ParseWordsOfList(ca.Args);
      assert r[3..] != "]]";
    }
  }

  /**
   * Without escaping, a word holding `", "` is written exactly like two
   * words: different commands can give the same text.
   */
  lemma UnescapedQuotesCollide()
    ensures Marshalled(CommandArgs("p", ["a\", \"b"])) == Marshalled(CommandArgs("p", ["a", "b"]))
    ensures CommandArgs("p", ["a\", \"b"]) != CommandArgs("p", ["a", "b"])
  {
    assert QuotedList(["a\", \"b"]) == "\"a\", \"b\"";
    assert ["a", "b"][1..] == ["b"];
    assert QuotedList(["a", "b"]) == "\"a\", \"b\"";
  }
}
