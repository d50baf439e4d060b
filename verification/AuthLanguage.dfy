/** The words a conversation may spell: prefixes of ((Connect | ReConnect)+ matching-proof RealmList*)*. */
module AuthLanguage {
  import opened Bytes
  import opened AuthPackets

  predicate Opens(c: Command) {
    c == ConnectCommand || c == ReConnectCommand
  }

  type Opening = c: Command | Opens(c) witness ConnectCommand

  function MatchingProof(c: Opening): Command {
    if c == ConnectCommand then ProofCommand else ReProofCommand
  }

  /** One or more connects or reconnects, the proof that answers the last of them, any number of realm lists. */
  datatype Round = Round(earlier: seq<Opening>, last: Opening, lists: nat)

  function Lists(n: nat): seq<Command> {
    if n == 0 then [] else Lists(n - 1) + [RealmListCommand]
  }

  function Word(r: Round): seq<Command> {
    r.earlier + [r.last] + [MatchingProof(r.last)] + Lists(r.lists)
  }

  function Sentence(rounds: seq<Round>): seq<Command> {
    if rounds == [] then [] else Sentence(rounds[..|rounds| - 1]) + Word(rounds[|rounds| - 1])
  }

  ghost predicate InLanguage(w: seq<Command>) {
    exists rounds: seq<Round> :: w <= Sentence(rounds)
  }

  // ---- the same words, one step at a time ----

  /** What may come after what. */
  predicate MayFollow(previous: Option<Command>, next: Command) {
    match next
    case ConnectCommand => true
    case ReConnectCommand => true
    case ProofCommand => previous == Some(ConnectCommand)
    case ReProofCommand => previous == Some(ReConnectCommand)
    case RealmListCommand => previous == Some(ProofCommand) || previous == Some(ReProofCommand) || previous == Some(RealmListCommand)
  }

  function Last(w: seq<Command>): Option<Command> {
    if w == [] then None else Some(w[|w| - 1])
  }

  predicate StepByStep(w: seq<Command>) {
    w == [] || (StepByStep(w[..|w| - 1]) && MayFollow(Last(w[..|w| - 1]), w[|w| - 1]))
  }

  lemma StepByStepAppend(w: seq<Command>, c: Command)
    ensures StepByStep(w + [c]) <==> StepByStep(w) && MayFollow(Last(w), c)
    ensures Last(w + [c]) == Some(c)
  {
    assert (w + [c])[..|w|] == w;
  }

  lemma {:induction false} StepByStepPrefix(w: seq<Command>, x: seq<Command>)
    requires w <= x && StepByStep(x)
    ensures StepByStep(w)
    decreases |x|
  {
    if w == x {
    } else {
      assert w <= x[..|x| - 1];
      StepByStepPrefix(w, x[..|x| - 1]);
    }
  }

  lemma {:induction false} AppendOpens(w: seq<Command>, opens: seq<Opening>, all: seq<Command>)
    requires StepByStep(w) && all == w + opens
    ensures StepByStep(all)
    decreases |opens|
  {
    if opens == [] {
      assert all == w;
    } else {
      var front, last := opens[..|opens| - 1], opens[|opens| - 1];
      AppendOpens(w, front, w + front);
      StepByStepAppend(w + front, last);
      assert all == (w + front) + [last];
    }
  }

  lemma {:induction false} AppendLists(w: seq<Command>, n: nat, all: seq<Command>)
    requires StepByStep(w) && MayFollow(Last(w), RealmListCommand) && all == w + Lists(n)
    ensures StepByStep(all) && MayFollow(Last(all), RealmListCommand)
  {
    if n == 0 {
      assert all == w;
    } else {
      AppendLists(w, n - 1, w + Lists(n - 1));
      StepByStepAppend(w + Lists(n - 1), RealmListCommand);
      assert all == (w + Lists(n - 1)) + [RealmListCommand];
    }
  }

  lemma {:induction false} SentencesStepByStep(rounds: seq<Round>)
    ensures StepByStep(Sentence(rounds))
  {
    if rounds != [] {
      var front, r := Sentence(rounds[..|rounds| - 1]), rounds[|rounds| - 1];
      SentencesStepByStep(rounds[..|rounds| - 1]);
      RoundStepByStep(front, r, front + Word(r));
    }
  }

  lemma WordLaidOut(front: seq<Command>, r: Round)
    ensures front + Word(r) == front + r.earlier + [r.last] + [MatchingProof(r.last)] + Lists(r.lists)
  {
  }

  /** An opening command and the proof it asks for. */
  lemma ProofStepByStep(asked: seq<Command>, last: Opening, answered: seq<Command>)
    requires StepByStep(asked) && MayFollow(Last(asked), last) && answered == asked + [last] + [MatchingProof(last)]
    ensures StepByStep(answered) && MayFollow(Last(answered), RealmListCommand)
  {
    StepByStepAppend(asked, last);
    StepByStepAppend(asked + [last], MatchingProof(last));
  }

  lemma RoundStepByStep(front: seq<Command>, r: Round, all: seq<Command>)
    requires StepByStep(front) && all == front + Word(r)
    ensures StepByStep(all)
  {
    var asked := front + r.earlier;
    var answered := asked + [r.last] + [MatchingProof(r.last)];
    WordLaidOut(front, r);
    AppendOpens(front, r.earlier, asked);
    ProofStepByStep(asked, r.last, answered);
    AppendLists(answered, r.lists, all);
  }

  /** A word taken apart: finished rounds, then opening commands that are still unanswered. */
  ghost predicate Parsed(w: seq<Command>, rounds: seq<Round>, opens: seq<Opening>) {
    && w == Sentence(rounds) + opens
    && (opens != [] ==> Last(w) == Some(opens[|opens| - 1]))
    && (opens == [] && w != [] ==> rounds != [] && !Opens(w[|w| - 1]))
  }

  lemma LongerWord(r: Round, longer: Round)
    requires longer == r.(lists := r.lists + 1)
    ensures Word(longer) == Word(r) + [RealmListCommand]
  {
  }

  lemma ExtendRound(rounds: seq<Round>, more: seq<Round>)
    requires rounds != []
    requires var r := rounds[|rounds| - 1]; more == rounds[..|rounds| - 1] + [r.(lists := r.lists + 1)]
    ensures Sentence(more) == Sentence(rounds) + [RealmListCommand]
  {
    var front, r := rounds[..|rounds| - 1], rounds[|rounds| - 1];
    assert more[..|more| - 1] == front;
    LongerWord(r, more[|more| - 1]);
  }

  lemma CloseRound(rounds: seq<Round>, opens: seq<Opening>, more: seq<Round>)
    requires opens != [] && more == rounds + [Round(opens[..|opens| - 1], opens[|opens| - 1], 0)]
    ensures Sentence(more) == Sentence(rounds) + opens + [MatchingProof(opens[|opens| - 1])]
  {
    var r := Round(opens[..|opens| - 1], opens[|opens| - 1], 0);
    assert more[..|more| - 1] == rounds;
    assert Word(r) == opens + [MatchingProof(r.last)];
  }

  lemma ParseOpening(w: seq<Command>, rounds: seq<Round>, opens: seq<Opening>, c: Opening)
    requires Parsed(w, rounds, opens)
    ensures Parsed(w + [c], rounds, opens + [c])
  {
    assert w + [c] == Sentence(rounds) + (opens + [c]);
  }

  lemma ParseAnswer(w: seq<Command>, rounds: seq<Round>, opens: seq<Opening>) returns (more: seq<Round>)
    requires Parsed(w, rounds, opens) && opens != []
    ensures Parsed(w + [MatchingProof(opens[|opens| - 1])], more, [])
  {
    more := rounds + [Round(opens[..|opens| - 1], opens[|opens| - 1], 0)];
    CloseRound(rounds, opens, more);
  }

  lemma ParseList(w: seq<Command>, rounds: seq<Round>) returns (more: seq<Round>)
    requires Parsed(w, rounds, []) && w != []
    ensures Parsed(w + [RealmListCommand], more, [])
  {
    var r := rounds[|rounds| - 1];
    more := rounds[..|rounds| - 1] + [r.(lists := r.lists + 1)];
    ExtendRound(rounds, more);
    assert w == Sentence(rounds);
  }

  /** One more command on a word already taken apart. */
  lemma ParseOne(w: seq<Command>, rounds: seq<Round>, opens: seq<Opening>, c: Command)
    returns (rounds': seq<Round>, opens': seq<Opening>)
    requires Parsed(w, rounds, opens) && MayFollow(Last(w), c)
    ensures Parsed(w + [c], rounds', opens')
  {
    if Opens(c) {
      rounds', opens' := rounds, opens + [c];
      ParseOpening(w, rounds, opens, c);
    } else if c == RealmListCommand {
      rounds' := ParseList(w, rounds);
      opens' := [];
    } else {
      rounds' := ParseAnswer(w, rounds, opens);
      opens' := [];
    }
  }

  /** Every word that goes step by step comes apart into rounds. */
  lemma {:induction false} Parse(w: seq<Command>) returns (rounds: seq<Round>, opens: seq<Opening>)
    requires StepByStep(w)
    ensures Parsed(w, rounds, opens)
  {
    if w == [] {
      rounds, opens := [], [];
    } else {
      var front, last := w[..|w| - 1], w[|w| - 1];
      rounds, opens := Parse(front);
      rounds, opens := ParseOne(front, rounds, opens, last);
      assert front + [last] == w;
    }
  }

  lemma LanguageIsStepByStep(w: seq<Command>)
    ensures InLanguage(w) <==> StepByStep(w)
  {
    if InLanguage(w) {
      var rounds: seq<Round> :| w <= Sentence(rounds);
      SentencesStepByStep(rounds);
      StepByStepPrefix(w, Sentence(rounds));
    }
    if StepByStep(w) {
      var rounds, opens := Parse(w);
      if opens != [] {
        var more := rounds + [Round(opens[..|opens| - 1], opens[|opens| - 1], 0)];
        CloseRound(rounds, opens, more);
        assert w <= Sentence(more);
      } else {
        assert w <= Sentence(rounds);
      }
    }
  }
}
