/** The votation screen of src/components/VotationCenter.tsx: the list of
    votations and the draft of a new one, the derived counts, the creation
    and vote handlers, and the "next closing date" card.

    The server's answer to each request is a parameter (`Err` carries the
    message the screen shows in an alert). The ids the draft gives its
    options are parameters too. */
module VotationCenter {
  import opened Wrappers
  import opened Js
  import opened Seqs

  datatype VotationStatus = Abierta | Cerrada

  /** An option of a votation; `text` is its `label`. */
  datatype VoteOption = VoteOption(id: string, text: string, votes: nat)

  datatype Votation = Votation(
    id: string, title: string, description: string, status: VotationStatus,
    closesAt: string, options: seq<VoteOption>)

  datatype DraftOption = DraftOption(id: string, text: string)

  datatype Draft = Draft(title: string, description: string, closesAt: string, options: seq<DraftOption>)

  /** What `api.createVotation` is sent: the draft's texts and its labels. */
  datatype CreatePayload = CreatePayload(title: string, description: string, closesAt: string, options: seq<string>)

  datatype Screen = Screen(votations: seq<Votation>, draft: Draft)

  // ---------------------------------------------------------------------
  // derived figures

  predicate IsOpen(v: Votation) {
    v.status == Abierta
  }

  predicate IsClosed(v: Votation) {
    v.status == Cerrada
  }

  /** `openCount`: never more than the list holds, and together with the
      closed ones it accounts for every votation. */
  function OpenCount(vs: seq<Votation>): (n: nat)
    ensures n <= |vs|
    ensures n + Count(vs, IsClosed) == |vs|
    ensures n == 0 <==> forall i :: 0 <= i < |vs| ==> vs[i].status == Cerrada
  {
    CountSplit(vs, IsOpen, IsClosed);
    Count(vs, IsOpen)
  }

  function OptionVotes(o: VoteOption): int {
    o.votes
  }

  /** `totalVotes`: the sum of the options' counts. */
  function TotalVotes(v: Votation): int
  {
    SumOf(v.options, OptionVotes)
  }

  /** The total is at least every option's count, and it is zero exactly
      when no option has a vote. */
  lemma TotalVotesBounds(v: Votation)
    ensures forall i :: 0 <= i < |v.options| ==> v.options[i].votes <= TotalVotes(v)
    ensures TotalVotes(v) == 0 <==> forall i :: 0 <= i < |v.options| ==> v.options[i].votes == 0
  {
    SumOfNonNegative(v.options, OptionVotes);
  }

  /** One more vote for one option adds exactly one to the total. */
  lemma {:induction false} TotalVotesAddOne(v: Votation, i: nat)
    requires i < |v.options|
    ensures TotalVotes(v.(options := v.options[i := v.options[i].(votes := v.options[i].votes + 1)]))
      == TotalVotes(v) + 1
  {
    var os := v.options;
    var os' := os[i := os[i].(votes := os[i].votes + 1)];
    assert os == os[..i] + [os[i]] + os[i + 1..];
    assert os' == os[..i] + [os'[i]] + os[i + 1..];
    SumOfAppend(os[..i] + [os[i]], os[i + 1..], OptionVotes);
    SumOfAppend(os[..i], [os[i]], OptionVotes);
    SumOfAppend(os[..i] + [os'[i]], os[i + 1..], OptionVotes);
    SumOfAppend(os[..i], [os'[i]], OptionVotes);
  }

  // ---------------------------------------------------------------------
  // the draft

  const FavorLabel := "A favor"
  const AgainstLabel := "En contra"

  /** A fresh draft: empty texts and the two default options. */
  function FreshDraft(id1: string, id2: string): (d: Draft)
    ensures d.title == "" && d.description == "" && d.closesAt == ""
    ensures |d.options| == 2
    ensures d.options[0].text == FavorLabel && d.options[1].text == AgainstLabel
  {
    Draft("", "", "", [DraftOption(id1, FavorLabel), DraftOption(id2, AgainstLabel)])
  }

  /** "Agregar opción": one more option, with an empty label, at the end. */
  function AddOption(d: Draft, id: string): (r: Draft)
    ensures |r.options| == |d.options| + 1
    ensures r.options[..|d.options|] == d.options
    ensures r.options[|d.options|].text == ""
    ensures r.title == d.title && r.description == d.description && r.closesAt == d.closesAt
  {
    d.(options := d.options + [DraftOption(id, "")])
  }

  /** Typing into option `i`: only that option's label changes, and the
      number of options is kept. */
  function EditOption(d: Draft, i: nat, text: string): (r: Draft)
    requires i < |d.options|
    ensures |r.options| == |d.options|
    ensures r.options[i].text == text && r.options[i].id == d.options[i].id
    ensures forall j :: 0 <= j < |d.options| && j != i ==> r.options[j] == d.options[j]
    ensures r.title == d.title && r.description == d.description && r.closesAt == d.closesAt
  {
    d.(options := d.options[i := d.options[i].(text := text)])
  }

  predicate Blank(text: string) {
    FalsyText(Trim(text))
  }

  /** The guard of `handleCreate`. Note that it accepts a draft with no
      options at all. */
  predicate DraftComplete(d: Draft) {
    && !FalsyText(d.title) && !FalsyText(d.description) && !FalsyText(d.closesAt)
    && forall i :: 0 <= i < |d.options| ==> !Blank(d.options[i].text)
  }

  /** A freshly added option blocks creation until its label is filled in. */
  lemma AddedOptionBlocksCreation(d: Draft, id: string)
    ensures !DraftComplete(AddOption(d, id))
  {
    var r := AddOption(d, id);
    assert Blank(r.options[|d.options|].text);
  }

  /** The two default options never block creation. */
  lemma FreshDraftOptionsFilled(id1: string, id2: string)
    ensures forall i :: 0 <= i < 2 ==> !Blank(FreshDraft(id1, id2).options[i].text)
  {
    var d := FreshDraft(id1, id2);
    assert !IsWhitespace(FavorLabel[0]) && !IsWhitespace(AgainstLabel[0]);
    assert !AllWhitespace(FavorLabel) && !AllWhitespace(AgainstLabel);
  }

  function DraftLabel(o: DraftOption): string {
    o.text
  }

  /** The request body built from a draft: its texts, and its labels in the
      same order and unchanged (not trimmed). */
  function Payload(d: Draft): (p: CreatePayload)
    ensures p.title == d.title && p.description == d.description && p.closesAt == d.closesAt
    ensures |p.options| == |d.options|
    ensures forall i :: 0 <= i < |d.options| ==> p.options[i] == d.options[i].text
  {
    CreatePayload(d.title, d.description, d.closesAt, MapSeq(d.options, DraftLabel))
  }

  // ---------------------------------------------------------------------
  // handlers

  /** `handleCreate`. An incomplete draft sends nothing and changes
      nothing. Otherwise the payload is sent; if the server accepts it, the
      created votation goes first in the list and the draft starts afresh;
      if it refuses, the screen is left as it was. The second component is
      the payload sent, if any. */
  function HandleCreate(sc: Screen, reply: Result<Votation, string>, id1: string, id2: string)
    : (r: (Screen, Option<CreatePayload>))
    ensures r.1.None? <==> !DraftComplete(sc.draft)
    ensures r.1.Some? ==> r.1.value == Payload(sc.draft)
    ensures r.1.None? || reply.Err? ==> r.0 == sc
    ensures r.1.Some? && reply.Ok? ==>
      && |r.0.votations| == |sc.votations| + 1
      && r.0.votations[0] == reply.value
      && r.0.votations[1..] == sc.votations
      && r.0.draft == FreshDraft(id1, id2)
  {
    if !DraftComplete(sc.draft) then (sc, None)
    else
      var payload := Payload(sc.draft);
      match reply
      case Ok(created) => (Screen([created] + sc.votations, FreshDraft(id1, id2)), Some(payload))
      case Err(_) => (sc, Some(payload))
  }

  /** A vote button exists only on an open votation. */
  predicate CanVote(v: Votation) {
    v.status == Abierta
  }

  /** The vote requests a votation's card offers, one "Votar" button per
      option in option order, each sending the votation's id and the
      option's id; a closed votation offers none. */
  function VoteRequests(v: Votation): (r: seq<(string, string)>)
    ensures |r| == (if IsOpen(v) then |v.options| else 0)
    ensures forall i :: 0 <= i < |r| ==> r[i] == (v.id, v.options[i].id)
  {
    if CanVote(v) then MapSeq(v.options, (o: VoteOption) => (v.id, o.id)) else []
  }

  /** An accepted votation raises the open figure by one when it is open
      and leaves it alone otherwise. */
  lemma CreatedVotationRaisesOpenCount(sc: Screen, created: Votation, id1: string, id2: string)
    requires DraftComplete(sc.draft)
    ensures OpenCount(HandleCreate(sc, Ok(created), id1, id2).0.votations)
      == OpenCount(sc.votations) + (if IsOpen(created) then 1 else 0)
  {
    var vs := [created] + sc.votations;
    assert vs[1..] == sc.votations;
    CountCons(vs, IsOpen);
  }

  /** The draft left after a creation is refused on the spot: nothing is
      sent, whatever the server would answer. */
  lemma FreshDraftRefused(vs: seq<Votation>, reply: Result<Votation, string>, id1: string, id2: string, id3: string, id4: string)
    ensures HandleCreate(Screen(vs, FreshDraft(id1, id2)), reply, id3, id4)
      == (Screen(vs, FreshDraft(id1, id2)), None)
  {
  }

  /** `handleVote`: the server's updated votation replaces every votation
      with the id voted on; the others keep their place. A refusal changes
      nothing. */
  function HandleVote(vs: seq<Votation>, votationId: string, reply: Result<Votation, string>)
    : (r: seq<Votation>)
    ensures |r| == |vs|
    ensures reply.Err? ==> r == vs
    ensures reply.Ok? ==> forall i :: 0 <= i < |vs| ==>
      r[i] == (if vs[i].id == votationId then reply.value else vs[i])
  {
    match reply
    case Ok(updated) => ReplaceWhere(vs, (v: Votation) => v.id == votationId, updated)
    case Err(_) => vs
  }

  // ---------------------------------------------------------------------
  // "Próximo cierre"

  /** What the card shows. */
  datatype ClosingCard =
    | NoRecords                   // "Sin registros"
    | NoUpcomingDate              // "Sin fecha próxima"
    | ClosesOn(date: string)      // the date itself

  function ClosesAt(v: Votation): string {
    v.closesAt
  }

  /** The closing dates of the open votations, in list order. */
  function OpenClosingDates(vs: seq<Votation>): (ds: seq<string>)
    ensures |ds| == OpenCount(vs)
    ensures forall i :: 0 <= i < |vs| && IsOpen(vs[i]) ==> vs[i].closesAt in ds
    ensures forall d :: d in ds ==> exists i :: 0 <= i < |vs| && IsOpen(vs[i]) && vs[i].closesAt == d
  {
    var open := Filter(vs, IsOpen);
    var ds := MapSeq(open, ClosesAt);
    assert forall i :: 0 <= i < |vs| && IsOpen(vs[i]) ==> vs[i].closesAt in ds by {
      forall i | 0 <= i < |vs| && IsOpen(vs[i]) ensures vs[i].closesAt in ds {
        var k :| 0 <= k < |open| && open[k] == vs[i];
        assert ds[k] == vs[i].closesAt;
      }
    }
    assert forall d :: d in ds ==> exists i :: 0 <= i < |vs| && IsOpen(vs[i]) && vs[i].closesAt == d by {
      forall d | d in ds ensures exists i :: 0 <= i < |vs| && IsOpen(vs[i]) && vs[i].closesAt == d {
        var k :| 0 <= k < |ds| && ds[k] == d;
        assert open[k] in vs;
        var i :| 0 <= i < |vs| && vs[i] == open[k];
        assert IsOpen(vs[i]) && vs[i].closesAt == d;
      }
    }
    ds
  }

  /** The "Próximo cierre" card. An empty list shows "Sin registros". The
      earliest closing date among the open votations is shown, unless no
      votation is open or that earliest date is empty (an open votation
      closing on ""), which shows "Sin fecha próxima". */
  function NextClosing(vs: seq<Votation>): (c: ClosingCard)
    ensures c == NoRecords <==> |vs| == 0
    ensures c == NoUpcomingDate <==>
      |vs| > 0 && (OpenCount(vs) == 0 || exists i :: 0 <= i < |vs| && IsOpen(vs[i]) && vs[i].closesAt == "")
    ensures c.ClosesOn? ==>
      && c.date != ""
      && (exists i :: 0 <= i < |vs| && IsOpen(vs[i]) && vs[i].closesAt == c.date)
      && (forall i :: 0 <= i < |vs| && IsOpen(vs[i]) ==> LexLe(c.date, vs[i].closesAt))
  {
    if |vs| == 0 then NoRecords
    else
      var ds := OpenClosingDates(vs);
      if |ds| == 0 then NoUpcomingDate
      else
        var m := MinString(ds);
        if m == "" then NoUpcomingDate
        else
          assert forall i :: 0 <= i < |vs| && IsOpen(vs[i]) ==> LexLe(m, vs[i].closesAt) by {
            forall i | 0 <= i < |vs| && IsOpen(vs[i]) ensures LexLe(m, vs[i].closesAt) {
              assert vs[i].closesAt in ds;
            }
          }
          assert !exists i :: 0 <= i < |vs| && IsOpen(vs[i]) && vs[i].closesAt == "" by {
            forall i | 0 <= i < |vs| && IsOpen(vs[i]) ensures vs[i].closesAt != "" {
              assert LexLe(m, vs[i].closesAt);
            }
          }
          ClosesOn(m)
  }
}
