/**
 * DefaultReviewMailHandler: tells the requester that the terms of a reviewed item have been
 * committed. The mail carries one subject and intro for a single term and another for several,
 * lists each term's OBO text on its own line, and goes to the item's e-mail address; a failure
 * to send is logged and goes no further.
 */
module ReviewMail {
  import opened Text

  /** A CommitedOntologyTerm, as far as the mail needs it. */
  datatype CommittedTerm = CommittedTerm(id: string, obo: string)

  /** A CommitHistoryItem: the committed terms and the requester's e-mail address. */
  datatype CommitHistoryItem = CommitHistoryItem(terms: seq<CommittedTerm>, email: string)

  /** The arguments of `sendEmail(subject, body, from, fromName, to)`. */
  datatype Mail = Mail(subject: string, body: string, from: string, fromName: string, to: string)

  const SubjectSeveral: string := "Your requested terms have been committed to the ontology."
  const SubjectOne: string := "Your requested term has been committed to the ontology."
  const IntroSeveral: string := "Hello,\n\nafter a review the following requested terms have been committed to ontology:\n\n"
  const IntroOne: string := "Hello,\n\nafter a review the following requested term has been committed to ontology:\n\n"

  /** The OBO texts of the terms, in order. */
  function OboTexts(terms: seq<CommittedTerm>): (texts: seq<string>)
    ensures |texts| == |terms| && forall i :: 0 <= i < |terms| ==> texts[i] == terms[i].obo
  {
    if terms == [] then [] else OboTexts(terms[..|terms| - 1]) + [terms[|terms| - 1].obo]
  }

  /** The subject and intro: the plural wording only for more than one term. */
  function Subject(count: nat): string {
    if count > 1 then SubjectSeveral else SubjectOne
  }

  function Intro(count: nat): string {
    if count > 1 then IntroSeveral else IntroOne
  }

  /** The mail `handleReviewMail(item)` sends from the configured address and name. */
  function ReviewMailFor(fromAddress: string, fromName: string, item: CommitHistoryItem): Mail {
    Mail(Subject(|item.terms|), Intro(|item.terms|) + Unlines(OboTexts(item.terms)), fromAddress, fromName, item.email)
  }

  /** The wording depends only on whether there is more than one term; the mail goes to the
      item's address from the configured sender. */
  lemma ReviewMailWording(fromAddress: string, fromName: string, item: CommitHistoryItem)
    ensures var m := ReviewMailFor(fromAddress, fromName, item);
      && (m.subject == SubjectSeveral <==> |item.terms| > 1)
      && (m.subject == SubjectOne <==> |item.terms| <= 1)
      && m.to == item.email && m.from == fromAddress && m.fromName == fromName
  {
    assert |SubjectSeveral| != |SubjectOne|;
  }

  /** The body is the intro followed by each term's OBO text and a newline, in term order; its
      length is that of the intro plus each text and its newline. */
  lemma {:induction false} ReviewMailBody(fromAddress: string, fromName: string, item: CommitHistoryItem)
    ensures var m := ReviewMailFor(fromAddress, fromName, item);
      && m.body[..|Intro(|item.terms|)|] == Intro(|item.terms|)
      && |m.body| == |Intro(|item.terms|)| + |item.terms| + SumOfLengths(OboTexts(item.terms))
  {
    UnlinesLength(OboTexts(item.terms));
  }

  /** The body of a single term is the singular intro, the term's text and a newline. */
  lemma SingleTermBody(fromAddress: string, fromName: string, term: CommittedTerm, email: string)
    ensures ReviewMailFor(fromAddress, fromName, CommitHistoryItem([term], email)).body == IntroOne + term.obo + "\n"
  {
    assert OboTexts([term]) == [term.obo];
    assert Unlines([term.obo]) == Unlines([]) + term.obo + "\n";
  }

  /** The body loop of `handleReviewMail`: each term's OBO text and a newline after the intro. */
  method AppendTerms(init: string, terms: seq<CommittedTerm>) returns (body: string)
    ensures body == init + Unlines(OboTexts(terms))
  {
    body := init;
    for i := 0 to |terms|
      invariant body == init + Unlines(OboTexts(terms[..i]))
    {
      assert terms[..i + 1][..i] == terms[..i];
      body := body + terms[i].obo + "\n";
    }
    assert terms[..|terms|] == terms;
  }

  /** The MailHandler: `accepts` says which mails the server takes; the others raise an
      EmailException. */
  class MailHandler {
    const accepts: Mail -> bool
    var sent: seq<Mail>

    constructor (accepts: Mail -> bool)
      ensures this.accepts == accepts && sent == []
    {
      this.accepts := accepts;
      sent := [];
    }

    /** `sendEmail(subject, body, from, fromName, to)`: false stands for the EmailException. */
    method SendEmail(subject: string, body: string, from: string, fromName: string, to: string) returns (ok: bool)
      modifies this
      ensures ok == accepts(Mail(subject, body, from, fromName, to))
      ensures sent == old(sent) + if ok then [Mail(subject, body, from, fromName, to)] else []
    {
      ok := accepts(Mail(subject, body, from, fromName, to));
      if ok {
        sent := sent + [Mail(subject, body, from, fromName, to)];
      }
    }
  }

  /** The handler, with its mail handler, sender address and name, and the warnings it logs. */
  class DefaultReviewMailHandler {
    const mailHandler: MailHandler
    const fromAddress: string
    const fromName: string
    var warnings: seq<string>

    constructor (mailHandler: MailHandler, fromAddress: string, fromName: string)
      ensures this.mailHandler == mailHandler && this.fromAddress == fromAddress && this.fromName == fromName
      ensures warnings == []
    {
      this.mailHandler := mailHandler;
      this.fromAddress := fromAddress;
      this.fromName := fromName;
      warnings := [];
    }

    /** `handleReviewMail(item)`: sends the review mail; a failure adds a warning and nothing
        else, so the caller never sees it. */
    method HandleReviewMail(item: CommitHistoryItem)
      modifies this, mailHandler
      ensures var m := ReviewMailFor(fromAddress, fromName, item);
        && mailHandler.sent == old(mailHandler.sent) + (if mailHandler.accepts(m) then [m] else [])
        && warnings == old(warnings) + if mailHandler.accepts(m) then [] else ["Could not send e-mail to user: " + item.email]
    {
      var terms := item.terms;
      var init: string;
      var subject: string;
      if |terms| > 1 {
        subject := SubjectSeveral;
        init := IntroSeveral;
      } else {
        subject := SubjectOne;
        init := IntroOne;
      }
      var body := AppendTerms(init, terms);
      var email := item.email;
      var ok := mailHandler.SendEmail(subject, body, fromAddress, fromName, email);
      if !ok {
        warnings := warnings + ["Could not send e-mail to user: " + email];
      }
    }
  }
}
