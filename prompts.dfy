/**
 * The two instruction texts generate_response and evaluate_conversation
 * build with f-strings. The long fixed prose of each template is kept as one
 * abbreviated constant; the interpolated fields and the text around them are
 * kept in order.
 */
module PromptBuilder {
  import opened PyText

  /** The persona rules: guarded in round 1, opening up in round 2, asking for a solution from round 3 only once real pain is shown. */
  const PersonaRules := "<persona behaviour rules for rounds 1, 2 and 3+, key traits, two to three sentences, stay in character>"

  /** The grading criteria, the JSON shape to return, the warmth guide and the JSON-only instruction. */
  const GradingRules := "<criteria: pain, urgency, credibility, pull; exact JSON format; warmth guide; return only the JSON>"

  const SalespersonCue := "Salesperson says: "

  /** The pieces of an f-string, literal text and interpolated values, written one after another. */
  function Concat(pieces: seq<string>): (r: string) {
    if pieces == [] then [] else pieces[0] + Concat(pieces[1..])
  }

  lemma {:induction false} ContainsInSuffix(x: string, y: string, t: string)
    requires Contains(y, t)
    ensures Contains(x + y, t)
  {
    var i :| 0 <= i <= |y| && Occurs(y, t, i);
    assert (x + y)[|x| + i..|x| + i + |t|] == y[i..i + |t|];
    assert Occurs(x + y, t, |x| + i);
  }

  /** Every piece of an f-string occurs in the text it produces. */
  lemma {:induction false} ConcatContainsPiece(pieces: seq<string>, k: nat)
    requires k < |pieces|
    ensures Contains(Concat(pieces), pieces[k])
  {
    var rest := Concat(pieces[1..]);
    if k == 0 {
      assert (pieces[0] + rest)[..|pieces[0]|] == pieces[0];
      assert Occurs(pieces[0] + rest, pieces[0], 0);
    } else {
      ConcatContainsPiece(pieces[1..], k - 1);
      ContainsInSuffix(pieces[0], rest, pieces[k]);
    }
  }

  /** The system prompt: the prospect's name, type, context and the round all appear in it. */
  function PersonaPrompt(name: string, kind: string, context: string, round: string): (p: string)
    ensures Contains(p, name) && Contains(p, kind) && Contains(p, context) && Contains(p, round)
  {
    var pieces := [
      "You are roleplaying as ", name, ", a ", kind, ". \n\nContext: ", context,
      "\n\nYou are in a sales conversation with a web designer. This is round ", round,
      " of the conversation.\n\n" + PersonaRules];
    ConcatContainsPiece(pieces, 1);
    ConcatContainsPiece(pieces, 3);
    ConcatContainsPiece(pieces, 5);
    ConcatContainsPiece(pieces, 7);
    Concat(pieces)
  }

  /** The user message: the cue followed by the salesperson's words, which dropping the cue gives back. */
  function UserMessage(transcript: string): (m: string)
    ensures StartsWith(m, SalespersonCue) && m[|SalespersonCue|..] == transcript
  {
    SalespersonCue + transcript
  }

  /** The grading prompt: the prospect type, the round, the salesperson's words and the prospect's reply all appear in it. */
  function EvaluatorPrompt(kind: string, round: string, transcript: string, reply: string): (p: string)
    ensures Contains(p, kind) && Contains(p, round) && Contains(p, transcript) && Contains(p, reply)
  {
    var pieces := [
      "You are a sales trainer evaluating a sales conversation.\n\nProspect type: ", kind,
      "\nRound: ", round, "\n\nSalesperson said: \"", transcript,
      "\"\nProspect responded: \"", reply, "\"\n\n" + GradingRules];
    ConcatContainsPiece(pieces, 1);
    ConcatContainsPiece(pieces, 3);
    ConcatContainsPiece(pieces, 5);
    ConcatContainsPiece(pieces, 7);
    Concat(pieces)
  }
}
