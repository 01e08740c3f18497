/** The failure report mail (lib/email.js). The SMTP transport is not
    modelled: `SendFailureEmail` returns the message it would hand over. */
module Email {
  import opened HubSpot

  const From := "\"Product Sync\" <dev@leibish.com>"
  const To := "hadasa@leibish.com"
  const Subject := "Failed SKU Report"
  const Header := "The following products failed to update:\n\n"

  datatype Mail = Mail(from: string, to: string, subject: string, text: string)

  /** The line a failure contributes to the report. */
  function FailureLine(f: Failure): string {
    "SKU: " + f.sku + " - Reason: " + f.reason + "\n"
  }

  /** The `reduce` that builds the mail text: each failure's line appended,
      left to right, to the header. */
  function ReportText(failures: seq<Failure>): string {
    if failures == [] then Header
    else ReportText(failures[..|failures| - 1]) + FailureLine(failures[|failures| - 1])
  }

  /** The failure lines in order, concatenated. */
  function Lines(failures: seq<Failure>): string {
    if failures == [] then "" else FailureLine(failures[0]) + Lines(failures[1..])
  }

  /** The report is the header followed by one line per failure, in the
      order the failures were recorded. */
  lemma {:induction false} ReportIsHeaderAndLines(failures: seq<Failure>)
    ensures ReportText(failures) == Header + Lines(failures)
    decreases |failures|
  {
    if failures != [] {
      var init := failures[..|failures| - 1];
      var last := failures[|failures| - 1];
      ReportIsHeaderAndLines(init);
      LinesSnoc(init, last);
      assert init + [last] == failures;
      var b, c := Lines(init), FailureLine(last);
      assert ReportText(failures) == (Header + b) + c;
      assert (Header + b) + c == Header + (b + c);
    }
  }

  lemma {:induction false} LinesSnoc(init: seq<Failure>, last: Failure)
    ensures Lines(init + [last]) == Lines(init) + FailureLine(last)
    decreases |init|
  {
    if init == [] {
      assert [] + [last] == [last];
    } else {
      var s := init + [last];
      assert s[0] == init[0] && s[1..] == init[1..] + [last];
      LinesSnoc(init[1..], last);
      var a, b, c := FailureLine(init[0]), Lines(init[1..]), FailureLine(last);
      assert Lines(s) == a + (b + c);
      assert a + (b + c) == (a + b) + c;
    }
  }

  /** `sendFailureEmail(failures)`: the message sent to the fixed recipient. */
  function SendFailureEmail(failures: seq<Failure>): (m: Mail)
    ensures m.from == From && m.to == To && m.subject == Subject
    ensures m.text == ReportText(failures)
  {
    Mail(From, To, Subject, ReportText(failures))
  }
}
