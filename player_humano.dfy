/** The format check player_humano.py applies to a line typed by a human player
    (`validar_entrada`): a verdict and the reason for it, decided on the words of the
    stripped line. The console text of each reason is not modelled, only which
    reason it is. */
module JogadorHumano {
  import opened Wrappers
  import opened Texto
  import opened Topologia
  import opened JogoTexto

  /** The reason `validar_entrada` gives with its verdict. */
  datatype Motivo =
    | EntradaVazia
    | PassarAVez
    | PassoSemQuatroNumeros
    | PassoForaDaGrade
    | PassoNaoNumerico
    | SaltoSoDaOnca
    | SaltoCurto
    | SaltoContagemErrada(numSaltos: int)
    | SaltoNaoNumerico
    | FormatoValido
    | TipoInvalido(tipo: string)

  /** `validar_entrada(entrada, lado)`: whether the line is well formed, and why. The
      line is stripped and split into words first. */
  function ValidarEntrada(entrada: string, lado: char): (bool, Motivo)
  {
    ValidarPartes(Words(Strip(entrada)), lado)
  }

  /** The verdict on the words of the line. The coordinates of a chain are not
      checked, only their count. */
  function ValidarPartes(partes: seq<string>, lado: char): (bool, Motivo)
  {
    if partes == [] then (false, EntradaVazia)
    else
      var tipo := partes[0];
      if tipo == "n" then (true, PassarAVez)
      else if tipo == "m" then
        if |partes| != 5 then (false, PassoSemQuatroNumeros)
        else if ParseInt(partes[1]).None? || ParseInt(partes[2]).None?
             || ParseInt(partes[3]).None? || ParseInt(partes[4]).None? then (false, PassoNaoNumerico)
        else
          var l1, c1 := ParseInt(partes[1]).value, ParseInt(partes[2]).value;
          var l2, c2 := ParseInt(partes[3]).value, ParseInt(partes[4]).value;
          if !(1 <= l1 <= 7 && 1 <= c1 <= 5 && 1 <= l2 <= 7 && 1 <= c2 <= 5) then (false, PassoForaDaGrade)
          else (true, FormatoValido)
      else if tipo == "s" then
        if lado != 'o' then (false, SaltoSoDaOnca)
        else if |partes| < 4 then (false, SaltoCurto)
        else if ParseInt(partes[1]).None? then (false, SaltoNaoNumerico)
        else
          var numSaltos := ParseInt(partes[1]).value;
          if |partes| != 2 + (numSaltos + 1) * 2 then (false, SaltoContagemErrada(numSaltos))
          else (true, FormatoValido)
      else (false, TipoInvalido(tipo))
  }

  /** A line with no words is refused; a first word `n` is accepted whatever follows;
      a first word other than `n`, `m` and `s` is refused. Only the two accepting
      reasons come with a `True`. */
  lemma ValidarEntradaTipos(partes: seq<string>, lado: char)
    ensures var r := ValidarPartes(partes, lado);
      && (partes == [] ==> r == (false, EntradaVazia))
      && (partes != [] && partes[0] == "n" ==> r == (true, PassarAVez))
      && (partes != [] && partes[0] != "n" && partes[0] != "m" && partes[0] != "s" ==> !r.0)
      && (r.0 <==> r.1 == PassarAVez || r.1 == FormatoValido)
  {
  }

  /** A step is accepted exactly when it has four more words, all integers, with rows
      in 1..7 and columns in 1..5. */
  lemma ValidarPasso(partes: seq<string>, lado: char)
    requires partes != [] && partes[0] == "m"
    ensures ValidarPartes(partes, lado).0 <==>
        && |partes| == 5
        && (forall k :: 1 <= k <= 4 ==> ParseInt(partes[k]).Some?)
        && 1 <= ParseInt(partes[1]).value <= 7 && 1 <= ParseInt(partes[2]).value <= 5
        && 1 <= ParseInt(partes[3]).value <= 7 && 1 <= ParseInt(partes[4]).value <= 5
  {
    if |partes| == 5 && ParseInt(partes[1]).Some? && ParseInt(partes[2]).Some?
       && ParseInt(partes[3]).Some? && ParseInt(partes[4]).Some? {
      assert forall k :: 1 <= k <= 4 ==> ParseInt(partes[k]).Some?;
    }
  }

  /** A chain is refused for the dogs; for the jaguar it is accepted exactly when it
      has at least four words, the second is an integer k and there are 2 (k + 1)
      more words after the first two. */
  lemma ValidarSalto(partes: seq<string>, lado: char)
    requires partes != [] && partes[0] == "s"
    ensures ValidarPartes(partes, lado).0 <==>
        && lado == 'o'
        && |partes| >= 4
        && ParseInt(partes[1]).Some?
        && |partes| == 2 + 2 * (ParseInt(partes[1]).value + 1)
    ensures lado != 'o' ==> ValidarPartes(partes, lado) == (false, SaltoSoDaOnca)
  {
  }

  /** The words a human types for a move: its type, for a chain the number of hops, and
      the coordinates of its cells. */
  function EntradaDoMovimento(m: Movimento): seq<string>
    requires m.tipo == 'm' || m.tipo == 's'
  {
    if m.tipo == 'm' then ["m"] + Coordenadas(m.posicoes)
    else ["s", IntToString(|m.posicoes| - 1)] + Coordenadas(m.posicoes)
  }

  lemma LinhaDeEntrada(ws: seq<string>)
    requires |ws| >= 1
    requires forall k :: 0 <= k < |ws| ==> Token(ws[k])
    ensures Words(Strip(Unwords(ws))) == ws
  {
    StripUnwords(ws);
    WordsOfUnwords(ws);
  }

  /** Every step between two cells of the board, and every chain of the jaguar through
      two or more cells, typed in the documented format, passes the check. */
  lemma MovimentoDigitadoAceito(m: Movimento, lado: char)
    requires m.tipo == 'm' ==> |m.posicoes| == 2
    requires m.tipo == 's' ==> |m.posicoes| >= 2 && lado == 'o'
    requires m.tipo == 'm' || m.tipo == 's'
    requires forall k :: 0 <= k < |m.posicoes| ==> EhCelula(m.posicoes[k])
    ensures ValidarEntrada(Unwords(EntradaDoMovimento(m)), lado) == (true, FormatoValido)
  {
    var ps := m.posicoes;
    CoordenadasSaoPalavras(ps);
    if m.tipo == 'm' {
      FormaDasCelulas(ps[0]);
      FormaDasCelulas(ps[1]);
      assert ps == [ps[0], ps[1]];
      assert EntradaDoMovimento(m) == ["m"] + Coordenadas([ps[0], ps[1]]);
      PassoDigitado(ps[0], ps[1], lado);
    } else {
      assert EntradaDoMovimento(m) == ["s", IntToString(|ps| - 1)] + Coordenadas(ps);
      SaltoDigitado(Coordenadas(ps), |ps| - 1);
    }
  }

  lemma PassoDigitado(a: Pos, b: Pos, lado: char)
    requires NaGrade(a) && NaGrade(b)
    ensures ValidarEntrada(Unwords(["m"] + Coordenadas([a, b])), lado) == (true, FormatoValido)
  {
    var ws := PalavrasDoPasso(a, b);
    assert ["m"] + Coordenadas([a, b]) == ws;
    PalavrasDoPassoAceitas(a, b, lado);
    LinhaDeEntrada(ws);
  }

  function PalavrasDoPasso(a: Pos, b: Pos): seq<string>
  {
    ["m", IntToString(a.l), IntToString(a.c), IntToString(b.l), IntToString(b.c)]
  }

  lemma PalavrasDoPassoAceitas(a: Pos, b: Pos, lado: char)
    requires NaGrade(a) && NaGrade(b)
    ensures |PalavrasDoPasso(a, b)| == 5
    ensures forall k :: 0 <= k < 5 ==> Token(PalavrasDoPasso(a, b)[k])
    ensures ValidarPartes(PalavrasDoPasso(a, b), lado) == (true, FormatoValido)
  {
    IntToStringRoundTrip(a.l);
    IntToStringRoundTrip(a.c);
    IntToStringRoundTrip(b.l);
    IntToStringRoundTrip(b.c);
  }

  lemma SaltoDigitado(cs: seq<string>, n: nat)
    requires |cs| == 2 * (n + 1) && n >= 1
    requires forall k :: 0 <= k < |cs| ==> Token(cs[k])
    ensures ValidarEntrada(Unwords(["s", IntToString(n)] + cs), 'o') == (true, FormatoValido)
  {
    var ws := ["s", IntToString(n)] + cs;
    IntToStringRoundTrip(n);
    assert forall k :: 2 <= k < |ws| ==> ws[k] == cs[k - 2];
    LinhaDeEntrada(ws);
    assert ws[0] == "s" && ws[1] == IntToString(n);
  }
}
