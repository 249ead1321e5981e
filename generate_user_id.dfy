/**
 * `POST /generate-user-id`: for a university email address, draw candidate
 * ids `UCLA_<word><two digits>` until one is not yet registered, then record
 * it without a username.
 */
module GenerateUserId {
  import opened Wrappers
  import opened Records
  import opened Text
  import opened Users
  import Validation

  /** The dictionary the word is drawn from (three words appear more than once). */
  const Words: seq<string> := [
    "cell", "tissue", "gene", "genome", "chromosome", "protein", "enzyme", "nucleus", "mitosis", "meiosis",
    "cytoplasm", "organelle", "mitochondria", "ribosome", "lysosome", "golgi", "endoplasmic", "reticulum",
    "plasma", "membrane", "cytoskeleton", "microtubule", "microfilament", "filament", "centrosome", "centromere",
    "telomere", "chromatin", "transcriptome", "proteome", "metabolome", "epigenetics", "biochemistry",
    "biophysics", "genetics", "immunology", "virology", "microbiology", "bacteria", "virus", "fungus",
    "parasite", "pathogen", "antigen", "antibody", "vaccine", "neuroscience", "physiology", "ecology",
    "evolution", "taxonomy", "botany", "zoology", "ornithology", "entomology", "paleontology", "taxonomy",
    "phylogeny", "epidemiology", "pharmacology", "toxicology", "oncology", "hematology", "taxonomy", "ecology",
    "conservation", "biodiversity", "biotechnology", "bioinformatics", "synthetic", "nanotechnology",
    "stemcell", "receptor", "ligand", "hormone", "cytokine", "neurotransmitter", "photosynthesis",
    "respiration", "metabolism", "homeostasis", "biosynthesis", "degradation", "signaling", "diagnosis",
    "therapy", "treatment", "cure"
  ]

  const IdPrefix := "UCLA_"

  /** Only the two university domains are served. */
  predicate AllowedEmail(email: string) {
    EndsWith(email, "@ucla.edu") || EndsWith(email, "@mednet.ucla.edu")
  }

  /** One pass of the loop: the word's index, the two digits, and whether the existence query failed. */
  datatype Draw = Draw(word: nat, tens: nat, units: nat, existsFails: bool)

  predicate ValidDraw(d: Draw) {
    d.word < |Words| && d.tens < 10 && d.units < 10
  }

  function Candidate(d: Draw): string
    requires ValidDraw(d)
  {
    IdPrefix + Words[d.word] + [DigitChar(d.tens), DigitChar(d.units)]
  }

  /** A candidate is "UCLA_", a dictionary word and two decimal digits, and the drawn digits can be read back from it. */
  lemma CandidateFormat(d: Draw)
    requires ValidDraw(d)
    ensures var c := Candidate(d);
      && |c| == |IdPrefix| + |Words[d.word]| + 2
      && StartsWith(c, IdPrefix)
      && c[|IdPrefix|..|c| - 2] in Words
      && IsDigit(c[|c| - 2]) && IsDigit(c[|c| - 1])
      && DigitValue(c[|c| - 2]) == d.tens && DigitValue(c[|c| - 1]) == d.units
  {
    var c := Candidate(d);
    var w := Words[d.word];
    assert c[|IdPrefix|..|c| - 2] == w;
    StartsWithAppend(IdPrefix, w + [DigitChar(d.tens), DigitChar(d.units)]);
    assert c == IdPrefix + (w + [DigitChar(d.tens), DigitChar(d.units)]);
  }

  /** The loop stops at a candidate the existence query does not report; a failed query reads as "not taken". */
  predicate Stops(users: map<string, Option<string>>, d: Draw)
    requires ValidDraw(d)
  {
    d.existsFails || Candidate(d) !in users
  }

  predicate AllValid(draws: seq<Draw>) {
    forall k :: 0 <= k < |draws| ==> ValidDraw(draws[k])
  }

  /** The draws contain one at which the loop stops. */
  predicate Terminates(users: map<string, Option<string>>, draws: seq<Draw>)
    requires AllValid(draws)
  {
    exists k :: 0 <= k < |draws| && Stops(users, draws[k])
  }

  /** The index of the draw the loop stops at. */
  function FirstStop(users: map<string, Option<string>>, draws: seq<Draw>): (k: nat)
    requires AllValid(draws) && Terminates(users, draws)
    ensures k < |draws| && Stops(users, draws[k])
    ensures forall j :: 0 <= j < k ==> !Stops(users, draws[j])
  {
    if Stops(users, draws[0]) then 0
    else
      assert Terminates(users, draws[1..]) by {
        var k :| 0 <= k < |draws| && Stops(users, draws[k]);
        assert draws[1..][k - 1] == draws[k];
      }
      1 + FirstStop(users, draws[1..])
  }

  datatype Reply =
    | Generated(success: bool, userId: string, message: string)
    | Refused(status: int, body: string)

  const OnlyUcla := "Only UCLA email addresses are allowed"
  const GeneratedMessage := "User ID generated successfully. In production, this would be emailed to the provided address."
  const InsertErrorPrefix := "Database insertion error: "

  datatype Step = Step(reply: Reply, users: map<string, Option<string>>)

  /** The endpoint as a function of the table. `emailValid` is the request's email-format check and
      `display` its rendering; an insert fails when `insertFails` or when the id is already present
      (user ids are unique), `insertError` being the database's message. */
  function Generate(users: map<string, Option<string>>, email: string, emailValid: bool, display: string,
                    draws: seq<Draw>, insertFails: bool, insertError: string): (s: Step)
    requires AllValid(draws)
    requires emailValid && AllowedEmail(email) ==> Terminates(users, draws)
    ensures s.reply.Refused? <==> !emailValid
    ensures s.reply.Refused? ==> s.reply.status == StatusBadRequest
    ensures s.users != users ==> s.reply.Generated? && s.reply.success && emailValid && AllowedEmail(email)
    ensures s.reply.Generated? && s.reply.success ==> |s.users| == |users| + 1
  {
    if !emailValid then
      var r := Validation.Respond(Validation.ValidationError(display));
      Step(Refused(r.status, r.body), users)
    else if !AllowedEmail(email) then Step(Generated(false, "", OnlyUcla), users)
    else
      var id := Candidate(draws[FirstStop(users, draws)]);
      if insertFails || id in users then Step(Generated(false, "", InsertErrorPrefix + insertError), users)
      else Step(Generated(true, id, GeneratedMessage), users[id := None])
  }

  /** An email outside the two domains gets `success: false`, an empty id, and the table is unchanged. */
  lemma ForeignDomainRefused(users: map<string, Option<string>>, email: string, display: string,
                             draws: seq<Draw>, insertFails: bool, insertError: string)
    requires AllValid(draws)
    requires !AllowedEmail(email)
    ensures Generate(users, email, true, display, draws, insertFails, insertError) == Step(Generated(false, "", OnlyUcla), users)
  {
  }

  /** A success carries an id of the documented format that was not registered before, and adds exactly
      that id, without a username; every failure leaves the table as it was and carries no id. */
  lemma GenerateOutcome(users: map<string, Option<string>>, email: string, emailValid: bool, display: string,
                        draws: seq<Draw>, insertFails: bool, insertError: string)
    requires AllValid(draws)
    requires emailValid && AllowedEmail(email) ==> Terminates(users, draws)
    ensures var s := Generate(users, email, emailValid, display, draws, insertFails, insertError);
      && (s.reply.Generated? && s.reply.success ==>
            && emailValid && AllowedEmail(email)
            && s.reply.userId !in users
            && s.users == users[s.reply.userId := None]
            && s.reply.userId == Candidate(draws[FirstStop(users, draws)])
            && StartsWith(s.reply.userId, IdPrefix)
            && s.reply.userId[|IdPrefix|..|s.reply.userId| - 2] in Words
            && IsDigit(s.reply.userId[|s.reply.userId| - 2]) && IsDigit(s.reply.userId[|s.reply.userId| - 1])
            && s.reply.message == GeneratedMessage)
      && (!(s.reply.Generated? && s.reply.success) ==> s.users == users)
      && (s.reply.Generated? && !s.reply.success ==> s.reply.userId == "")
      && (s.reply.Refused? <==> !emailValid)
  {
    if emailValid && AllowedEmail(email) {
      CandidateFormat(draws[FirstStop(users, draws)]);
    }
  }

  /** The freshness loop: draws are taken in order until the loop stops; `k` is the number of the draw it stopped at. */
  method PickId(users: map<string, Option<string>>, draws: seq<Draw>) returns (id: string, k: nat)
    requires AllValid(draws) && Terminates(users, draws)
    ensures k == FirstStop(users, draws)
    ensures id == Candidate(draws[k])
  {
    k := 0;
    while !Stops(users, draws[k])
      invariant k <= FirstStop(users, draws)
      decreases FirstStop(users, draws) - k
    {
      k := k + 1;
    }
    id := Candidate(draws[k]);
  }

  method GenerateUserId(reg: Registry, email: string, emailValid: bool, display: string,
                        draws: seq<Draw>, insertFails: bool, insertError: string) returns (reply: Reply)
    requires AllValid(draws)
    requires emailValid && AllowedEmail(email) ==> Terminates(reg.users, draws)
    modifies reg
    ensures Step(reply, reg.users) == Generate(old(reg.users), email, emailValid, display, draws, insertFails, insertError)
  {
    if !emailValid {
      var r := Validation.Respond(Validation.ValidationError(display));
      return Refused(r.status, r.body);
    }
    if !AllowedEmail(email) {
      return Generated(false, "", OnlyUcla);
    }
    var id, _ := PickId(reg.users, draws);
    if insertFails || id in reg.users {
      return Generated(false, "", InsertErrorPrefix + insertError);
    }
    reg.users := reg.users[id := None];
    return Generated(true, id, GeneratedMessage);
  }
}
