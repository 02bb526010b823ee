/**
 * The poll page of src/components/project.tsx (the MantaPolls component):
 * it loads a snapshot of every poll from the deployed polling contract,
 * creates polls from a title and a comma-separated options text, casts
 * votes, and reports failures in a single error line.
 *
 * The contract is visible to the page only through its reads and writes, so
 * it is modelled as an oracle: a ContractView says what each read answers at
 * the time of a load, and a TxOutcome says how a write transaction ended.
 */
module PollSync {
  import opened Wrappers
  import opened Text

  // ---------------------------------------------------------------------
  // Values
  // ---------------------------------------------------------------------

  /** What a catch block receives: an Error with its message, or some other
      thrown value. */
  datatype Thrown = Error(message: string) | NotAnError

  /** A loaded poll: its id, title, options and one vote count per option. */
  datatype Poll = Poll(id: nat, title: string, options: seq<string>, votes: seq<nat>)

  /** What the contract answers about one poll id: the title the page takes
      from polls(id) (whatever poll.title evaluates to), getPollOptions(id),
      and getPollVotes(id, option) for each option text; None, or an option
      missing from votes, means that call throws. */
  datatype PollReads = PollReads(title: Option<string>, options: Option<seq<string>>, votes: map<string, nat>)

  /** What the contract answers to reads during one load: pollCount(), and
      the reads of each id (an id missing from polls: every read throws). */
  datatype ContractView = ContractView(pollCount: Result<nat, Thrown>, polls: map<nat, PollReads>)

  /** An ethers Contract object bound to a signer; only its presence and its
      identity matter to the page. */
  datatype ContractHandle = ContractHandle(signer: nat)

  /** How a write ended: the write call itself threw (for instance the user
      rejected the signature), its tx.wait() threw (the transaction failed),
      or it was confirmed. */
  datatype TxOutcome = SendFailed(thrown: Thrown) | WaitFailed(thrown: Thrown) | Confirmed

  /** A write the page issues to the contract. */
  datatype Write = CreatePollCall(title: string, options: seq<string>) | VoteCall(pollId: nat, option: string)

  /** What connectWallet's provider calls produced: getSigner threw, the
      contract was bound but getAddress threw, or both succeeded. */
  datatype ConnectOutcome =
    | SignerFailed(thrown: Thrown)
    | AddressFailed(handle: ContractHandle, thrown: Thrown)
    | Connected(handle: ContractHandle, address: string)

  // ---------------------------------------------------------------------
  // The messages shown in the error line
  // ---------------------------------------------------------------------

  const ProviderMissing := "Provider not available. Please make sure you have MetaMask installed and try again."
  const NotInitialized := "Contract is not initialized. Please connect your wallet."
  const WalletNotConnected := "Please connect your wallet first"
  const NotInitializedReconnect := "Contract is not initialized. Please try reconnecting your wallet."
  const MissingFields := "Please enter both a title and options for the poll"
  const UnknownError := "An unknown error occurred"
  const ConnectFailed := "Failed to connect wallet"
  const LoadFailed := "Failed to load polls"
  const CreateFailed := "Failed to create poll"
  const VoteFailed := "Failed to cast vote"

  /** handleError: the prefix, a colon and a space, then the Error's message
      or, for anything else thrown, the unknown-error text. */
  function ErrorMessage(e: Thrown, prefix: string): (r: string)
    ensures |r| >= |prefix| + 2 && r[..|prefix|] == prefix && r[|prefix|..|prefix| + 2] == ": "
    ensures r[|prefix| + 2..] == (if e.Error? then e.message else UnknownError)
  {
    prefix + ": " + (match e case Error(m) => m case NotAnError => UnknownError)
  }

  /** An error line is never empty, so the page always shows it; and two
      Errors with the same prefix give the same line only if their messages
      agree, so the line identifies the message. */
  lemma ErrorMessageShowsCause(e1: Thrown, e2: Thrown, prefix: string)
    ensures ErrorMessage(e1, prefix) != ""
    ensures e1.Error? && e2.Error? && ErrorMessage(e1, prefix) == ErrorMessage(e2, prefix) ==> e1.message == e2.message
  {
  }

  // ---------------------------------------------------------------------
  // Reading one poll
  // ---------------------------------------------------------------------

  /** Promise.all(options.map(option => getPollVotes(id, option))): the
      counts in option order, or None as soon as one read throws. */
  function ReadVotes(counts: map<string, nat>, options: seq<string>): (r: Option<seq<nat>>)
    ensures r.Some? <==> forall k :: 0 <= k < |options| ==> options[k] in counts
    ensures r.Some? ==> |r.value| == |options| && forall k :: 0 <= k < |options| ==> r.value[k] == counts[options[k]]
  {
    if options == [] then Some([])
    else if options[0] !in counts then None
    else
      match ReadVotes(counts, options[1..])
      case None => None
      case Some(rest) => Some([counts[options[0]]] + rest)
  }

  /** Every read of one poll succeeds. */
  predicate Readable(answer: PollReads)
  {
    answer.title.Some? && answer.options.Some? &&
    forall k :: 0 <= k < |answer.options.value| ==> answer.options.value[k] in answer.votes
  }

  /** The body of the try block for one id: the title, then the options,
      then a count per option; any throw drops the poll. */
  function ReadPoll(view: ContractView, id: nat): (r: Option<Poll>)
    ensures r.Some? <==> (id in view.polls && Readable(view.polls[id]))
    ensures r.Some? ==>
      var answer := view.polls[id];
      r.value.id == id && r.value.title == answer.title.value && r.value.options == answer.options.value &&
      |r.value.votes| == |r.value.options| &&
      forall k :: 0 <= k < |r.value.options| ==> r.value.votes[k] == answer.votes[r.value.options[k]]
  {
    if id !in view.polls then None
    else
      var answer := view.polls[id];
      if answer.title.None? || answer.options.None? then None
      else
        match ReadVotes(answer.votes, answer.options.value)
        case None => None
        case Some(votes) => Some(Poll(id, answer.title.value, answer.options.value, votes))
  }

  // ---------------------------------------------------------------------
  // The snapshot of all polls
  // ---------------------------------------------------------------------

  /** The loadedPolls list after ids 1..n: the successfully read polls, in
      the order the loop visits their ids. */
  function Snapshot(view: ContractView, n: nat): seq<Poll>
  {
    if n == 0 then []
    else Snapshot(view, n - 1) + (match ReadPoll(view, n) case Some(p) => [p] case None => [])
  }

  predicate IdsAscending(polls: seq<Poll>)
  {
    forall j, k :: 0 <= j < k < |polls| ==> polls[j].id < polls[k].id
  }

  /** What every list the page displays satisfies: ids start at 1 and
      strictly ascend (so none appears twice), and each poll has one vote
      count per option. */
  predicate WellFormedPolls(polls: seq<Poll>)
  {
    IdsAscending(polls) &&
    (forall k :: 0 <= k < |polls| ==> 1 <= polls[k].id && |polls[k].votes| == |polls[k].options|)
  }

  /** The snapshot of ids 1..n is well formed, holds no id beyond n and so
      at most n polls. */
  lemma {:induction false} SnapshotWellFormed(view: ContractView, n: nat)
    ensures WellFormedPolls(Snapshot(view, n))
    ensures forall k :: 0 <= k < |Snapshot(view, n)| ==> Snapshot(view, n)[k].id <= n
    ensures |Snapshot(view, n)| <= n
  {
    if n > 0 {
      SnapshotWellFormed(view, n - 1);
      var prev := Snapshot(view, n - 1);
      match ReadPoll(view, n)
      case None =>
        assert Snapshot(view, n) == prev;
      case Some(p) =>
        var s := Snapshot(view, n);
        assert s == prev + [p];
        assert forall k :: 0 <= k < |prev| ==> s[k] == prev[k];
    }
  }

  /** Nothing is lost and nothing made up: a poll is in the snapshot of ids
      1..n exactly when its id is in 1..n and reading that id gave it. A
      poll whose reads throw is left out without stopping later ids. */
  lemma {:induction false} SnapshotExact(view: ContractView, n: nat)
    ensures forall p :: p in Snapshot(view, n) <==> (1 <= p.id <= n && ReadPoll(view, p.id) == Some(p))
  {
    if n > 0 {
      SnapshotExact(view, n - 1);
      var prev := Snapshot(view, n - 1);
      match ReadPoll(view, n)
      case None =>
        assert Snapshot(view, n) == prev;
      case Some(q) =>
        assert Snapshot(view, n) == prev + [q];
    }
  }

  /** Every id in 1..n whose reads succeed is in the snapshot exactly once,
      with the title, options and counts the contract answered. */
  lemma SnapshotHasEachReadablePoll(view: ContractView, n: nat, id: nat)
    requires 1 <= id <= n && id in view.polls && Readable(view.polls[id])
    ensures exists k :: 0 <= k < |Snapshot(view, n)| && Snapshot(view, n)[k] == ReadPoll(view, id).value
    ensures forall j, k :: 0 <= j < k < |Snapshot(view, n)| ==> !(Snapshot(view, n)[j].id == id && Snapshot(view, n)[k].id == id)
  {
    SnapshotExact(view, n);
    SnapshotWellFormed(view, n);
    var p := ReadPoll(view, id).value;
    assert p in Snapshot(view, n);
  }

  /** The loop of loadPolls: visit ids 1..count in order and push each poll
      that was read in full. */
  method CollectPolls(view: ContractView, count: nat) returns (loaded: seq<Poll>)
    ensures loaded == Snapshot(view, count)
    ensures WellFormedPolls(loaded) && |loaded| <= count
    ensures forall p :: p in loaded <==> (1 <= p.id <= count && ReadPoll(view, p.id) == Some(p))
  {
    loaded := [];
    var i := 1;
    while i <= count
      invariant 1 <= i <= count + 1
      invariant loaded == Snapshot(view, i - 1)
    {
      var poll := ReadPoll(view, i);
      match poll {
        case Some(p) => loaded := loaded + [p];
        case None =>
      }
      i := i + 1;
    }
    SnapshotWellFormed(view, count);
    SnapshotExact(view, count);
  }

  // ---------------------------------------------------------------------
  // Vote totals
  // ---------------------------------------------------------------------

  /** votes.reduce((a, b) => a + b, 0), folded from the left. */
  function ReduceVotes(votes: seq<nat>, acc: nat): nat
  {
    if votes == [] then acc else ReduceVotes(votes[1..], acc + votes[0])
  }

  /** The total shown under a poll and used as the maximum of every bar. */
  function TotalVotes(votes: seq<nat>): nat
  {
    ReduceVotes(votes, 0)
  }

  /** The sum of the counts, by structural recursion. */
  function Sum(votes: seq<nat>): nat
  {
    if votes == [] then 0 else votes[0] + Sum(votes[1..])
  }

  lemma {:induction false} ReduceIsSum(votes: seq<nat>, acc: nat)
    ensures ReduceVotes(votes, acc) == acc + Sum(votes)
  {
    if votes != [] {
      ReduceIsSum(votes[1..], acc + votes[0]);
    }
  }

  /** The total is the sum of the counts, no bar exceeds it, and it is 0
      exactly when every option has 0 votes. */
  lemma {:induction false} TotalBoundsEachCount(votes: seq<nat>)
    ensures TotalVotes(votes) == Sum(votes)
    ensures forall k :: 0 <= k < |votes| ==> votes[k] <= TotalVotes(votes)
    ensures TotalVotes(votes) == 0 <==> forall k :: 0 <= k < |votes| ==> votes[k] == 0
  {
    ReduceIsSum(votes, 0);
    SumBoundsEach(votes);
  }

  lemma {:induction false} SumBoundsEach(votes: seq<nat>)
    ensures forall k :: 0 <= k < |votes| ==> votes[k] <= Sum(votes)
    ensures Sum(votes) == 0 <==> forall k :: 0 <= k < |votes| ==> votes[k] == 0
  {
    if votes != [] {
      SumBoundsEach(votes[1..]);
      assert forall k :: 1 <= k < |votes| ==> votes[k] == votes[1..][k - 1];
    }
  }

  // ---------------------------------------------------------------------
  // Loading, guards and options text
  // ---------------------------------------------------------------------

  /** contractInstance || contract: an explicit handle wins over the stored one. */
  function ContractToUse(instance: Option<ContractHandle>, stored: Option<ContractHandle>): (r: Option<ContractHandle>)
    ensures instance.Some? ==> r == instance
    ensures instance.None? ==> r == stored
  {
    if instance.Some? then instance else stored
  }

  /** The polls and error line loadPolls leaves, given the handle it uses,
      what the contract answers and the polls shown before: without a
      handle, or when pollCount() throws, the old polls stay; otherwise they
      are replaced by the snapshot and the error line is cleared. */
  function LoadOutcome(handle: Option<ContractHandle>, view: ContractView, before: seq<Poll>): (r: (seq<Poll>, string))
    ensures handle.None? ==> r == (before, NotInitialized)
    ensures handle.Some? && view.pollCount.Err? ==> r == (before, ErrorMessage(view.pollCount.error, LoadFailed))
    ensures handle.Some? && view.pollCount.Ok? ==>
      r.1 == "" && forall p :: p in r.0 <==> (1 <= p.id <= view.pollCount.value && ReadPoll(view, p.id) == Some(p))
    ensures WellFormedPolls(before) ==> WellFormedPolls(r.0)
  {
    if handle.None? then (before, NotInitialized)
    else
      match view.pollCount
      case Err(e) => (before, ErrorMessage(e, LoadFailed))
      case Ok(n) =>
        SnapshotWellFormed(view, n);
        SnapshotExact(view, n);
        (Snapshot(view, n), "")
  }

  /** A load that reaches the contract does not depend on what was shown
      before: two pages with different polls end with the same ones. */
  lemma LoadForgetsPrevious(handle: ContractHandle, view: ContractView, before1: seq<Poll>, before2: seq<Poll>)
    requires view.pollCount.Ok?
    ensures LoadOutcome(Some(handle), view, before1) == LoadOutcome(Some(handle), view, before2)
    ensures LoadOutcome(Some(handle), view, before1).0 == Snapshot(view, view.pollCount.value)
  {
  }

  /** createPoll's guards, in the order it checks them; None lets the
      transaction through. */
  function CreateGuard(wallet: string, contract: Option<ContractHandle>, title: string, optionsText: string): (r: Option<string>)
    ensures r.None? <==> (wallet != "" && contract.Some? && title != "" && optionsText != "")
    ensures wallet == "" ==> r == Some(WalletNotConnected)
    ensures wallet != "" && contract.None? ==> r == Some(NotInitializedReconnect)
    ensures wallet != "" && contract.Some? && (title == "" || optionsText == "") ==> r == Some(MissingFields)
  {
    if wallet == "" then Some(WalletNotConnected)
    else if contract.None? then Some(NotInitializedReconnect)
    else if title == "" || optionsText == "" then Some(MissingFields)
    else None
  }

  /** newPollOptions.split(',').map(option => option.trim()): one option per
      comma plus one, in input order, each the trimmed piece; empty pieces
      are kept. */
  function SplitOptions(text: string): (r: seq<string>)
    ensures |r| == |Split(text, ',')| == Count(text, ',') + 1
    ensures forall k :: 0 <= k < |r| ==> r[k] == Trim(Split(text, ',')[k])
  {
    SplitPieces(text, ',');
    TrimAll(Split(text, ','))
  }

  /** The pieces of the options text "Pizza, , ". */
  lemma SplitPizza()
    ensures Split("Pizza, , ", ',') == ["Pizza", " ", " "]
  {
    assert "Pizza, , " == "Pizza" + [','] + " , ";
    SplitFirstPiece("Pizza", ',', " , ");
    assert " , " == " " + [','] + " ";
    SplitFirstPiece(" ", ',', " ");
    SplitNoSeparator(" ", ',');
  }

  /** Trimming those pieces. */
  lemma TrimPizza()
    ensures Trim("Pizza") == "Pizza" && Trim(" ") == ""
  {
  }

  /** createPoll lets "Pizza, , " through and sends three options, two of
      them empty: this path checks only that the text is not empty. */
  lemma PizzaIsSentWithEmptyOptions(wallet: string, handle: ContractHandle, title: string)
    requires wallet != "" && title != ""
    ensures CreateGuard(wallet, Some(handle), title, "Pizza, , ") == None
    ensures SplitOptions("Pizza, , ") == ["Pizza", "", ""]
  {
    SplitPizza();
    TrimPizza();
    var r := SplitOptions("Pizza, , ");
    assert |r| == 3;
    assert r[0] == "Pizza" && r[1] == "" && r[2] == "";
  }

  // ---------------------------------------------------------------------
  // The page
  // ---------------------------------------------------------------------

  /** The MantaPolls component's state and the handlers that change it. */
  class MantaPolls {
    /** Whether the browser supplied a wallet provider when the page mounted. */
    const providerPresent: bool
    var contract: Option<ContractHandle>
    var connectedWallet: string
    var polls: seq<Poll>
    var newPollTitle: string
    var newPollOptions: string
    var error: string

    /** The polls on display were produced by a load. */
    predicate Valid()
      reads this
    {
      WellFormedPolls(polls)
    }

    constructor (providerPresent: bool)
      ensures this.providerPresent == providerPresent && contract == None && connectedWallet == ""
      ensures polls == [] && newPollTitle == "" && newPollOptions == "" && error == ""
      ensures Valid()
    {
      this.providerPresent := providerPresent;
      contract := None;
      connectedWallet := "";
      polls := [];
      newPollTitle := "";
      newPollOptions := "";
      error := "";
    }

    /** The title input's onChange. */
    method EditTitle(value: string)
      modifies this`newPollTitle
      ensures newPollTitle == value
    {
      newPollTitle := value;
    }

    /** The options textarea's onChange. */
    method EditOptions(value: string)
      modifies this`newPollOptions
      ensures newPollOptions == value
    {
      newPollOptions := value;
    }

    /** loadPolls(contractInstance): clear the error, read pollCount, collect
        the polls and replace the displayed list in one assignment. */
    method LoadPolls(instance: Option<ContractHandle>, view: ContractView)
      requires Valid()
      modifies this`polls, this`error
      ensures Valid()
      ensures (polls, error) == LoadOutcome(ContractToUse(instance, contract), view, old(polls))
    {
      var contractToUse := ContractToUse(instance, contract);
      if contractToUse.Some? {
        error := "";
        match view.pollCount {
          case Err(e) =>
            error := ErrorMessage(e, LoadFailed);
          case Ok(count) =>
            var loaded := CollectPolls(view, count);
            polls := loaded;
        }
      } else {
        error := NotInitialized;
      }
    }

    /** connectWallet: bind the contract to the signer, record the address,
        then load with the new handle passed explicitly. */
    method ConnectWallet(outcome: ConnectOutcome, view: ContractView)
      requires Valid()
      modifies this`contract, this`connectedWallet, this`polls, this`error
      ensures Valid()
      ensures !providerPresent ==>
        error == ProviderMissing && contract == old(contract) && connectedWallet == old(connectedWallet) && polls == old(polls)
      ensures providerPresent && outcome.SignerFailed? ==>
        error == ErrorMessage(outcome.thrown, ConnectFailed) && contract == old(contract) &&
        connectedWallet == old(connectedWallet) && polls == old(polls)
      ensures providerPresent && outcome.AddressFailed? ==>
        error == ErrorMessage(outcome.thrown, ConnectFailed) && contract == Some(outcome.handle) &&
        connectedWallet == old(connectedWallet) && polls == old(polls)
      ensures providerPresent && outcome.Connected? ==>
        contract == Some(outcome.handle) && connectedWallet == outcome.address &&
        (polls, error) == LoadOutcome(Some(outcome.handle), view, old(polls))
    {
      if providerPresent {
        match outcome {
          case SignerFailed(e) =>
            error := ErrorMessage(e, ConnectFailed);
          case AddressFailed(h, e) =>
            contract := Some(h);
            error := ErrorMessage(e, ConnectFailed);
          case Connected(h, address) =>
            contract := Some(h);
            connectedWallet := address;
            LoadPolls(Some(h), view);
        }
      } else {
        error := ProviderMissing;
      }
    }

    /** createPoll (the form on this page): check the guards in order, send
        the title and the split options, and only once the transaction is
        confirmed reset both fields and reload. Returns the write issued. */
    method CreatePoll(tx: TxOutcome, view: ContractView) returns (sent: Option<Write>)
      requires Valid()
      modifies this`polls, this`error, this`newPollTitle, this`newPollOptions
      ensures Valid()
      ensures CreateGuard(connectedWallet, contract, old(newPollTitle), old(newPollOptions)).Some? ==>
        sent == None && error == CreateGuard(connectedWallet, contract, old(newPollTitle), old(newPollOptions)).value &&
        polls == old(polls) && newPollTitle == old(newPollTitle) && newPollOptions == old(newPollOptions)
      ensures CreateGuard(connectedWallet, contract, old(newPollTitle), old(newPollOptions)).None? ==>
        sent == Some(CreatePollCall(old(newPollTitle), SplitOptions(old(newPollOptions))))
      ensures CreateGuard(connectedWallet, contract, old(newPollTitle), old(newPollOptions)).None? && tx.Confirmed? ==>
        newPollTitle == "" && newPollOptions == "" && (polls, error) == LoadOutcome(contract, view, old(polls))
      ensures CreateGuard(connectedWallet, contract, old(newPollTitle), old(newPollOptions)).None? && !tx.Confirmed? ==>
        newPollTitle == old(newPollTitle) && newPollOptions == old(newPollOptions) &&
        polls == old(polls) && error == ErrorMessage(tx.thrown, CreateFailed)
    {
      var guard := CreateGuard(connectedWallet, contract, newPollTitle, newPollOptions);
      if guard.Some? {
        error := guard.value;
        sent := None;
        return;
      }
      error := "";
      var options := SplitOptions(newPollOptions);
      sent := Some(CreatePollCall(newPollTitle, options));
      match tx {
        case SendFailed(e) =>
          error := ErrorMessage(e, CreateFailed);
        case WaitFailed(e) =>
          error := ErrorMessage(e, CreateFailed);
        case Confirmed =>
          newPollTitle := "";
          newPollOptions := "";
          LoadPolls(None, view);
      }
    }

    /** handleCreatePoll(title, options): the onCreatePoll a CreatePollForm
        would call. It checks only that a contract is present, sends what it
        is given and reloads through the stored handle. */
    method HandleCreatePoll(title: string, options: seq<string>, tx: TxOutcome, view: ContractView) returns (sent: Option<Write>)
      requires Valid()
      modifies this`polls, this`error
      ensures Valid()
      ensures contract.None? ==> sent == None && error == NotInitialized && polls == old(polls)
      ensures contract.Some? ==> sent == Some(CreatePollCall(title, options))
      ensures contract.Some? && tx.Confirmed? ==> (polls, error) == LoadOutcome(contract, view, old(polls))
      ensures contract.Some? && !tx.Confirmed? ==> polls == old(polls) && error == ErrorMessage(tx.thrown, CreateFailed)
    {
      if contract.None? {
        error := NotInitialized;
        sent := None;
        return;
      }
      error := "";
      sent := Some(CreatePollCall(title, options));
      match tx {
        case SendFailed(e) =>
          error := ErrorMessage(e, CreateFailed);
        case WaitFailed(e) =>
          error := ErrorMessage(e, CreateFailed);
        case Confirmed =>
          LoadPolls(contract, view);
      }
    }

    /** castVote(pollId, option): without a contract nothing happens at all;
        otherwise send the vote and reload once it is confirmed. */
    method CastVote(pollId: nat, option: string, tx: TxOutcome, view: ContractView) returns (sent: Option<Write>)
      requires Valid()
      modifies this`polls, this`error
      ensures Valid()
      ensures contract.None? ==> sent == None && error == old(error) && polls == old(polls)
      ensures contract.Some? ==> sent == Some(VoteCall(pollId, option))
      ensures contract.Some? && tx.Confirmed? ==> (polls, error) == LoadOutcome(contract, view, old(polls))
      ensures contract.Some? && !tx.Confirmed? ==> polls == old(polls) && error == ErrorMessage(tx.thrown, VoteFailed)
    {
      sent := None;
      if contract.Some? {
        error := "";
        sent := Some(VoteCall(pollId, option));
        match tx {
          case SendFailed(e) =>
            error := ErrorMessage(e, VoteFailed);
          case WaitFailed(e) =>
            error := ErrorMessage(e, VoteFailed);
          case Confirmed =>
            LoadPolls(None, view);
        }
      }
    }
  }
}
