/**
 * The decisions of the /consulta handler: the court heuristic and the
 * choice between the failure body and the success body, built from the
 * normalised process number.
 */
module Consulta {
  import opened Wrappers
  import opened Cnj

  const InvalidMessage: string := "NPU inválido ou não reconhecido"
  const OnlineMessage: string := "Conector online (dados reais ainda não implementados neste template)."
  const FirstInstance: string := "1GRAU"
  const SaoPauloCourt: string := "TJSP"

  /** Segment 8 (state courts), court 26 (São Paulo), originating unit 0100, as a suffix. */
  const SaoPauloSuffix: string := ".8.26.0100"

  /** Segment 8, court 26, with the dots around them. */
  const SaoPauloInfix: string := ".8.26."

  predicate EndsWith(s: string, suffix: string) {
    |suffix| <= |s| && s[|s| - |suffix|..] == suffix
  }

  predicate OccursAt(s: string, sub: string, p: nat) {
    p + |sub| <= |s| && s[p..p + |sub|] == sub
  }

  /** Python's `sub in s`. */
  predicate Contains(s: string, sub: string) {
    exists p: nat :: p <= |s| && OccursAt(s, sub, p)
  }

  /**
   * An `endswith` test is a test for an occurrence that finishes at the
   * end, so a string ending in `suffix` also contains it.
   */
  lemma EndsWithIsOccurrenceAtEnd(s: string, suffix: string)
    ensures EndsWith(s, suffix) <==> |suffix| <= |s| && OccursAt(s, suffix, |s| - |suffix|)
    ensures EndsWith(s, suffix) ==> Contains(s, suffix)
  {
    if EndsWith(s, suffix) {
      assert OccursAt(s, suffix, |s| - |suffix|);
    }
  }

  /**
   * The court heuristic: "TJSP" when the number ends in .8.26.0100 or
   * holds .8.26., else none. On a canonical number this is "TJSP" exactly
   * when the segment J is 8 and the court TR is 26.
   */
  function Tribunal(cnj: string): (r: Option<string>)
    ensures r == None || r == Some(SaoPauloCourt)
    ensures IsCanonical(cnj) ==> (r == Some(SaoPauloCourt) <==> cnj[16] == '8' && cnj[18..20] == "26")
    ensures r.Some? <==> EndsWith(cnj, SaoPauloSuffix) || Contains(cnj, SaoPauloInfix)
  {
    SaoPauloTestOnCanonical(cnj);
    if EndsWith(cnj, SaoPauloSuffix) || Contains(cnj, SaoPauloInfix) then Some(SaoPauloCourt) else None
  }

  /** In a canonical number, .8.26. can only stand at index 15, the dots around J and TR. */
  lemma InfixOnlyAtSegment(c: string, p: nat)
    requires IsCanonical(c) && OccursAt(c, SaoPauloInfix, p)
    ensures p == 15
  {
    assert c[p] == c[p..p + 6][0] == '.';
    assert c[p + 2] == c[p..p + 6][2] == '.';
    assert c[p + 5] == c[p..p + 6][5] == '.';
    assert Fits(c[p], SlotAt(p)) && Fits(c[p + 2], SlotAt(p + 2)) && Fits(c[p + 5], SlotAt(p + 5));
  }

  /**
   * On a canonical number the test of the court heuristic holds exactly
   * when the segment J is 8 and the court TR is 26; the suffix test adds
   * nothing to the substring test.
   */
  lemma SaoPauloTestOnCanonical(c: string)
    ensures IsCanonical(c) ==>
      (EndsWith(c, SaoPauloSuffix) || Contains(c, SaoPauloInfix) <==> c[16] == '8' && c[18..20] == "26")
    ensures IsCanonical(c) ==> (EndsWith(c, SaoPauloSuffix) ==> Contains(c, SaoPauloInfix))
  {
    if IsCanonical(c) {
      assert Fits(c[15], SlotAt(15)) && Fits(c[17], SlotAt(17)) && Fits(c[20], SlotAt(20));
      if EndsWith(c, SaoPauloSuffix) {
        assert c[15..21] == c[15..25][..6];
        assert OccursAt(c, SaoPauloInfix, 15);
      }
      if Contains(c, SaoPauloInfix) {
        var p: nat :| p <= |c| && OccursAt(c, SaoPauloInfix, p);
        InfixOnlyAtSegment(c, p);
        assert c[16] == c[15..21][1];
        assert c[18..20] == c[15..21][3..5];
      }
      if c[16] == '8' && c[18..20] == "26" {
        assert c[18] == c[18..20][0] && c[19] == c[18..20][1];
        assert c[15..21] == SaoPauloInfix;
        assert OccursAt(c, SaoPauloInfix, 15);
      }
    }
  }

  /** The response body of /consulta. */
  datatype Response =
    | Rejected(message: string, numero: string)
    | Online(
        numero: string,
        tribunal: Option<string>,
        grau: string,
        urlPublica: Option<string>,
        resumo: Option<string>,
        partes: seq<string>,
        movimentacoes: seq<string>,
        message: string)
  {
    /** The body's "ok" key. */
    predicate Ok() {
      Online?
    }
  }

  /** The body /consulta returns for the query parameter `processo`. */
  function Consulta(processo: string): (r: Response)
    ensures r.Ok() <==> Normalize(processo) != ""
    ensures !r.Ok() ==> r.numero == processo && r.message == InvalidMessage
    ensures r.Ok() ==> r.numero == Normalize(processo) && r.tribunal == Tribunal(r.numero)
    ensures r.Ok() ==> r.grau == FirstInstance && r.urlPublica == None && r.resumo == None
    ensures r.Ok() ==> r.partes == [] && r.movimentacoes == [] && r.message == OnlineMessage
  {
    var cnj := Normalize(processo);
    if cnj == "" then
      Rejected(InvalidMessage, processo)
    else
      Online(cnj, Tribunal(cnj), FirstInstance, None, None, [], [], OnlineMessage)
  }

  /**
   * A successful body carries a canonical number that normalises to
   * itself and a court that is "TJSP" exactly for segment 8, court 26.
   */
  lemma ConsultaOnlineNumber(processo: string)
    requires Consulta(processo).Ok()
    ensures IsCanonical(Consulta(processo).numero)
    ensures Normalize(Consulta(processo).numero) == Consulta(processo).numero
    ensures var n := Consulta(processo).numero;
      Consulta(processo).tribunal == Some(SaoPauloCourt) <==> n[16] == '8' && n[18..20] == "26"
  {
    var n := Consulta(processo).numero;
    CanonicalIsFixedPoint(n);
  }

  /** Asking again with the number a successful body returned gives the same body. */
  lemma ConsultaStable(processo: string)
    requires Consulta(processo).Ok()
    ensures Consulta(Consulta(processo).numero) == Consulta(processo)
  {
    CanonicalIsFixedPoint(Consulta(processo).numero);
  }

  // Worked cases, with the input taken through `requires s == ...` so that
  // the verifier does not unfold `Consulta` on a literal argument.

  lemma SaoPauloExample(s: string)
    requires s == "0001234-56.2020.8.26.0100"
    ensures Consulta(s).Ok() && Consulta(s).numero == s
    ensures Consulta(s).tribunal == Some(SaoPauloCourt)
  {
    assert IsCanonical(s);
    CanonicalIsFixedPoint(s);
  }

  lemma OtherCourtExample(s: string)
    requires s == "0001234-56.2020.4.03.0100"
    ensures Consulta(s).Ok() && Consulta(s).tribunal == None
  {
    assert IsCanonical(s);
    CanonicalIsFixedPoint(s);
  }

  lemma NotANumberExample(s: string)
    requires s == "abc not a number"
    ensures Consulta(s) == Rejected(InvalidMessage, s)
  {
    NoDigitsFail(s);
  }
}
