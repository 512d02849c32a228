/**
 * The verdict of one review round: `sanitize_json` on the auditor's reply,
 * the debugger's verdict on a failing run, and the score escalation that
 * lets a loop of near-perfect audits terminate.
 */
module Audit {
  import opened Wrappers
  import opened PyText
  import opened PyJson
  import opened Extraction

  /** The review dict of a round: `{"pass": ..., "score": ..., "critique": ...}`. */
  datatype Verdict = Verdict(passed: bool, score: int, critique: string)

  /** The critique used when neither a critique nor a suggestion is usable. */
  const DefaultCritique: string := "代码符合规范。"

  /** The prefix of the verdict for a reply that is not a JSON object. */
  const ParseAnomaly: string := "解析异常: "

  /** The prefix of the verdict when reviewing raised an exception. */
  const ReviewException: string := "审查异常: "

  /** The critique kept by `sanitize_json`: the reply's own if it has five characters or more. */
  function CritiqueOf(fields: seq<(string, Json)>): (c: string)
    ensures c != []
    ensures |Str(DictGet(fields, "critique", JStr("")))| >= 5 ==> c == Str(DictGet(fields, "critique", JStr("")))
    ensures |Str(DictGet(fields, "critique", JStr("")))| < 5 && Str(DictGet(fields, "suggestion", JStr(""))) != [] ==>
              c == Str(DictGet(fields, "suggestion", JStr("")))
    ensures |Str(DictGet(fields, "critique", JStr("")))| < 5 && Str(DictGet(fields, "suggestion", JStr(""))) == [] ==>
              c == DefaultCritique
  {
    var critique := Str(DictGet(fields, "critique", JStr("")));
    if critique == [] || |critique| < 5 then
      var suggestion := Str(DictGet(fields, "suggestion", JStr("")));
      if suggestion != [] then suggestion else DefaultCritique
    else critique
  }

  /**
   * `sanitize_json(data, raw_text)`: a reply that is not an object becomes a
   * failing verdict quoting the first 100 characters of the raw text; an
   * object is read field by field, and `int()` of its score may raise.
   */
  function SanitizeJson(data: Json, rawText: string): (r: Result<Verdict, PyError>)
    ensures !data.JObj? ==> r == Success(Verdict(false, 0, ParseAnomaly + Take(rawText, 100) + "..."))
    ensures data.JObj? ==>
      (r.Success? <==> ToInt(DictGet(data.fields, "score", JInt(0))).Success?)
    ensures data.JObj? && r.Success? ==>
      && r.value.score == ToInt(DictGet(data.fields, "score", JInt(0))).value
      && r.value.passed == Truthy(DictGet(data.fields, "pass", JBool(false)))
      && r.value.critique == CritiqueOf(data.fields)
    ensures r.Failure? ==> r.error == ToInt(DictGet(data.fields, "score", JInt(0))).error
  {
    match data
    case JObj(fields) =>
      var critique := CritiqueOf(fields);
      (match ToInt(DictGet(fields, "score", JInt(0)))
       case Success(score) => Success(Verdict(Truthy(DictGet(fields, "pass", JBool(false))), score, critique))
       case Failure(e) => Failure(e))
    case _ => Success(Verdict(false, 0, ParseAnomaly + Take(rawText, 100) + "..."))
  }

  /**
   * The escalation of an audited score: a score of 90 or more with a critique
   * shorter than 15 characters, or a score of 85 or more equal to the
   * previous audited score, is raised (or lowered) to exactly 95.
   */
  function Escalate(raw: int, critique: string, previous: int): (s: int)
    ensures s == raw || s == 95
    ensures (raw >= 90 && |critique| < 15) || (raw == previous && raw >= 85) ==> s == 95
    ensures !((raw >= 90 && |critique| < 15) || (raw == previous && raw >= 85)) ==> s == raw
    ensures s >= 95 <==> raw >= 95 || (raw >= 90 && |critique| < 15) || (raw == previous && raw >= 85)
  {
    var s := if raw >= 90 && |critique| < 15 then 95 else raw;
    if raw == previous && raw >= 85 then 95 else s
  }

  /** Two audits in a row with the same score of 85 or more end at 95. */
  lemma EscalateRepeated(raw: int, critique: string)
    requires raw >= 85
    ensures Escalate(raw, critique, raw) == 95
  {
  }

  /** Below 85 the audited score is kept as it is. */
  lemma EscalateKeepsLow(raw: int, critique: string, previous: int)
    requires raw < 85
    ensures Escalate(raw, critique, previous) == raw
  {
  }

  /** A perfect score with a terse critique is brought down to 95. */
  lemma EscalateCapsTersePerfect(critique: string, previous: int)
    requires |critique| < 15
    ensures Escalate(100, critique, previous) == 95
  {
  }

  predicate StartsWith(s: string, prefix: string) {
    |prefix| <= |s| && s[..|prefix|] == prefix
  }

  /** The verdict of a failing run, from the debugger's reply. */
  function DebugVerdict(reply: string, parse: Parser): (v: Verdict)
    ensures !v.passed
    ensures v.score == 40 <==> parse(CleanJsonText(reply)).Success? && parse(CleanJsonText(reply)).value.JObj?
    ensures v.score != 40 ==> v.score == 0 && StartsWith(v.critique, ReviewException)
  {
    match parse(CleanJsonText(reply))
    case Failure(msg) => Verdict(false, 0, ReviewException + msg)
    case Success(JObj(fields)) =>
      Verdict(false, 40, "**故障分析**: " + Str(DictGet(fields, "analysis", JNull))
                         + "\n\n**修复方案**: " + Str(DictGet(fields, "suggestion", JNull)))
    case Success(other) => Verdict(false, 0, ReviewException + NoGet(other))
  }

  /** `str(e)` of the `AttributeError` raised by `x.get` on a non-dict. */
  function NoGet(j: Json): string {
    "'" + TypeName(j) + "' object has no attribute 'get'"
  }

  /** The verdict of a passing run and the previous score carried to the next round. */
  datatype AuditOutcome = AuditOutcome(verdict: Verdict, previous: int)

  /**
   * The auditor's verdict on a passing run: decoded, sanitized, marked as
   * passing and escalated; any exception gives a failing verdict with score
   * 0 and leaves the previous score as it was.
   */
  function AuditVerdict(reply: string, parse: Parser, previous: int): (o: AuditOutcome)
    ensures o.verdict.passed <==>
      parse(CleanJsonText(reply)).Success? && SanitizeJson(parse(CleanJsonText(reply)).value, reply).Success?
    ensures !o.verdict.passed ==>
      o.verdict.score == 0 && o.previous == previous && StartsWith(o.verdict.critique, ReviewException)
    ensures o.verdict.passed ==>
      && parse(CleanJsonText(reply)).Success?
      && SanitizeJson(parse(CleanJsonText(reply)).value, reply).Success?
      && var raw := SanitizeJson(parse(CleanJsonText(reply)).value, reply).value;
         o.previous == raw.score
         && o.verdict.critique == raw.critique
         && o.verdict.score == Escalate(raw.score, raw.critique, previous)
  {
    match parse(CleanJsonText(reply))
    case Failure(msg) => AuditOutcome(Verdict(false, 0, ReviewException + msg), previous)
    case Success(data) =>
      match SanitizeJson(data, reply)
      case Failure(e) => AuditOutcome(Verdict(false, 0, ReviewException + e.msg), previous)
      case Success(raw) =>
        AuditOutcome(Verdict(true, Escalate(raw.score, raw.critique, previous), raw.critique), raw.score)
  }
}
