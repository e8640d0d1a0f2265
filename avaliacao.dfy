/** The evaluation functions of busca.py: `_avaliar` scores a board for the side that
    maximizes, with +-10000 for a finished game and otherwise the jaguar's or the dogs'
    heuristic. Scores are exact `real` numbers; the jaguar's score is an integer. */
module Avaliacao {
  import opened Wrappers
  import opened Topologia
  import opened Jogo

  /** How many of `vs` hold a dog (`tabuleiro.get(vizinho) == 'c'`, counted in a loop). */
  function CaesEntre(t: Tabuleiro, vs: seq<Pos>): (n: nat)
    ensures n <= |vs|
  {
    if vs == [] then 0
    else CaesEntre(t, vs[..|vs| - 1]) + (if Tem(t, vs[|vs| - 1], 'c') then 1 else 0)
  }

  /** The capture chains among `ms` (`sum(1 for mov in ... if mov[0] == 's')`). */
  function Capturas(ms: seq<Movimento>): (n: nat)
    ensures n <= |ms|
  {
    if ms == [] then 0
    else Capturas(ms[..|ms| - 1]) + (if ms[|ms| - 1].tipo == 's' then 1 else 0)
  }

  /** The dogs' links: for every dog, its listed neighbours holding a dog. */
  function Conexoes(t: Tabuleiro, ps: seq<Pos>): nat
  {
    if ps == [] then 0
    else Conexoes(t, ps[..|ps| - 1]) + CaesEntre(t, Vizinhos(ps[|ps| - 1]))
  }

  /** The advance bonus: 15 per row below row 3 for every dog on rows 4 and beyond. */
  function Avanco(ps: seq<Pos>): int
  {
    if ps == [] then 0
    else Avanco(ps[..|ps| - 1]) + (if ps[|ps| - 1].l >= 4 then (ps[|ps| - 1].l - 3) * 15 else 0)
  }

  /** The material term of `_avaliar_onca`: 500 per dog taken out of 14, and 200 more
      per dog below 11. */
  function MaterialOnca(n: int): int
  {
    (14 - n) * 500 + (if n <= 11 then (11 - n) * 200 else 0)
  }

  /** The material term of `_avaliar_cachorros`: 300 per dog, and 400 less per dog
      below 11. */
  function MaterialCaes(n: int): int
  {
    n * 300 - (if n <= 11 then (11 - n) * 400 else 0)
  }

  /** `_avaliar_onca(estado)`. */
  function AvaliarOnca(t: Tabuleiro): int
  {
    var n := ContarCachorros(t);
    var ms := Movimentos(t, 'o');
    var pos := PosicaoOnca(t);
    MaterialOnca(n)
    + |ms| * 10
    + (match pos
       case None => 0
       case Some(p) => (5 - Abs(p.c - 3)) * 15 + p.l * 8)
    + Capturas(ms) * 100
    - (if |ms| <= 2 then 100 else 0)
    - (if |ms| == 0 then 5000 else 0)
    - (match pos
       case None => 0
       case Some(p) => CaesEntre(t, Vizinhos(p)) * 20)
  }

  /** The share of the jaguar's listed neighbours holding a dog, 0 when it has none. */
  function ProporcaoCercada(t: Tabuleiro, vs: seq<Pos>): real
  {
    if |vs| > 0 then CaesEntre(t, vs) as real / |vs| as real else 0.0
  }

  /** `_avaliar_cachorros(estado)`. */
  function AvaliarCachorros(t: Tabuleiro): real
  {
    var n := ContarCachorros(t);
    var ms := Movimentos(t, 'o');
    var dogs := PosicoesCachorros(t);
    MaterialCaes(n) as real
    + ((20 - |ms|) * 50) as real
    + (if |ms| == 0 then 10000.0 else if |ms| <= 2 then 500.0 else 0.0)
    + (match PosicaoOnca(t)
       case None => 0.0
       case Some(p) => (CaesEntre(t, Vizinhos(p)) * 80) as real + ProporcaoCercada(t, Vizinhos(p)) * 200.0)
    + (Conexoes(t, dogs) * 5) as real
    + Avanco(dogs) as real
  }

  /** `_avaliar(estado, lado)`. */
  function Avaliar(t: Tabuleiro, lado: char): real
  {
    var v := Vencedor(t);
    if v == Some(lado) then 10000.0
    else if v.Some? then -10000.0
    else if lado == 'o' then AvaliarOnca(t) as real
    else AvaliarCachorros(t)
  }

  /** A finished game scores +10000 for its winner and -10000 for the other side; an
      unfinished one is scored by the side's own heuristic. */
  lemma AvaliarSpec(t: Tabuleiro, lado: char)
    ensures EhTerminal(t) ==> (Avaliar(t, lado) == 10000.0 <==> Vencedor(t) == Some(lado))
    ensures EhTerminal(t) ==> (Avaliar(t, lado) == -10000.0 <==> Vencedor(t) != Some(lado))
    ensures !EhTerminal(t) ==> Avaliar(t, lado) == if lado == 'o' then AvaliarOnca(t) as real else AvaliarCachorros(t)
  {
    VencedorSpec(t);
  }

  /** Fewer dogs is always better for the jaguar and worse for the dogs: each dog lost
      is worth at least 500 to the jaguar and at least 300 to the dogs. */
  lemma MaterialMonotono(n: int, n2: int)
    requires n < n2
    ensures MaterialOnca(n) - MaterialOnca(n2) >= 500 * (n2 - n)
    ensures MaterialCaes(n2) - MaterialCaes(n) >= 300 * (n2 - n)
  {
  }

  /** The jaguar's score keeps a blocked jaguar far below a mobile one: with no move
      it is at most its material minus 4969, with a move at least its material minus
      197, whatever the position. */
  lemma NotaOncaLimites(t: Tabuleiro)
    ensures Movimentos(t, 'o') == [] ==> AvaliarOnca(t) <= MaterialOnca(ContarCachorros(t)) - 4969
    ensures Movimentos(t, 'o') != [] ==> AvaliarOnca(t) >= MaterialOnca(ContarCachorros(t)) - 197
  {
    if PosicaoOnca(t).Some? {
      var p := PosicaoOnca(t).value;
      CelulasNaGrade();
      GrauMaximo(p);
      assert NaGrade(p);
    }
  }

  /** For the same number of dogs, a blocked jaguar always scores lower for the jaguar
      than a jaguar that can move, by more than a dog's worth of material many times
      over. */
  lemma BloqueioPesa(t: Tabuleiro, t2: Tabuleiro)
    requires ContarCachorros(t) == ContarCachorros(t2)
    requires Movimentos(t, 'o') == [] && Movimentos(t2, 'o') != []
    ensures AvaliarOnca(t2) - AvaliarOnca(t) >= 4772
  {
    NotaOncaLimites(t);
    NotaOncaLimites(t2);
  }

  lemma {:induction false} AvancoNaoNegativo(ps: seq<Pos>)
    ensures Avanco(ps) >= 0
    decreases |ps|
  {
    if ps != [] {
      AvancoNaoNegativo(ps[..|ps| - 1]);
    }
  }

  /** A blocked jaguar is worth at least 11000 to the dogs on top of their material:
      the full mobility term and the 10000 bonus. */
  lemma NotaCaesBloqueio(t: Tabuleiro)
    requires Movimentos(t, 'o') == []
    ensures AvaliarCachorros(t) >= MaterialCaes(ContarCachorros(t)) as real + 11000.0
  {
    AvancoNaoNegativo(PosicoesCachorros(t));
    if PosicaoOnca(t).Some? {
      ProporcaoCercadaSpec(t, Vizinhos(PosicaoOnca(t).value));
    }
  }

  /** The dogs around a cell are counted exactly: the count reaches the number of
      neighbours exactly when every neighbour holds a dog, and is zero exactly when
      none does. */
  lemma {:induction false} CaesEntreSpec(t: Tabuleiro, vs: seq<Pos>)
    ensures CaesEntre(t, vs) == |vs| <==> forall i :: 0 <= i < |vs| ==> Tem(t, vs[i], 'c')
    ensures CaesEntre(t, vs) == 0 <==> forall i :: 0 <= i < |vs| ==> !Tem(t, vs[i], 'c')
    decreases |vs|
  {
    if vs != [] {
      var ini := vs[..|vs| - 1];
      CaesEntreSpec(t, ini);
      assert forall i :: 0 <= i < |ini| ==> ini[i] == vs[i];
    }
  }

  /** The encirclement share is a proportion: between 0 and 1, and 1 exactly when every
      neighbour holds a dog. */
  lemma ProporcaoCercadaSpec(t: Tabuleiro, vs: seq<Pos>)
    ensures 0.0 <= ProporcaoCercada(t, vs) <= 1.0
    ensures |vs| > 0 ==>
      (ProporcaoCercada(t, vs) == 1.0 <==> forall i :: 0 <= i < |vs| ==> Tem(t, vs[i], 'c'))
  {
    CaesEntreSpec(t, vs);
    if |vs| > 0 {
      Fracao(CaesEntre(t, vs), |vs|);
    }
  }

  lemma Fracao(c: nat, n: nat)
    requires 0 < n && c <= n
    ensures 0.0 <= c as real / n as real <= 1.0
    ensures c as real / n as real == 1.0 <==> c == n
  {
    var q := c as real / n as real;
    assert q * (n as real) == c as real;
  }
}
