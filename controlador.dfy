/** The referee of controlador.py. It reads a move line (`parse`), checks the geometry
    of one step or one hop (`pos_valida`, `mov_possivel`), plays the move on the board
    text (`aplica`) and decides whether a side has won (`vitoria`). The board is the
    72-character text `para_string` writes, and cell (l, c) is character `8 * l + c`. */
module Controlador {
  import opened Wrappers
  import opened Texto
  import opened Topologia
  import opened Jogo
  import opened JogoTexto

  // ---------------------------------------------------------------------------
  // Helpers

  /** `OUTRO`: the side that plays next. */
  function Outro(lado: char): char
  {
    if lado == 'o' then 'c' else 'o'
  }

  /** `OUTRO` swaps the two sides. */
  lemma OutroTroca(lado: char)
    requires lado == 'o' || lado == 'c'
    ensures Outro(lado) != lado
    ensures Outro(lado) == 'o' || Outro(lado) == 'c'
    ensures Outro(Outro(lado)) == lado
  {
  }

  /** `POS`: the index of cell (l, c) in the board text. */
  function IndicePos(l: int, c: int): int
  {
    8 * l + c
  }

  /** The element Python's `xs[i]` reads for `-n <= i < n`. */
  function IndicePython(n: int, i: int): int
  {
    if i < 0 then i + n else i
  }

  /** `pos_valida`. */
  predicate PosValida(l: int, c: int)
  {
    if !(1 <= l <= 7 && 1 <= c <= 5) then false
    else if l == 6 && (c == 1 || c == 5) then false
    else if l == 7 && (c == 2 || c == 4) then false
    else true
  }

  /** The referee's valid positions are exactly the cells of the engine's table. */
  lemma PosValidaCelula(l: int, c: int)
    ensures PosValida(l, c) <==> EhCelula(Pos(l, c))
    ensures PosValida(l, c) <==>
      (1 <= l <= 5 && 1 <= c <= 5) || (l == 6 && 2 <= c <= 4) || (l == 7 && (c == 1 || c == 3 || c == 5))
  {
    FormaDasCelulas(Pos(l, c));
  }

  /** A valid position is one of the characters 9 .. 61, and different positions are
      different characters. */
  lemma IndiceValido(l: int, c: int, l2: int, c2: int)
    requires PosValida(l, c)
    ensures 9 <= IndicePos(l, c) <= 61
    ensures PosValida(l2, c2) && IndicePos(l, c) == IndicePos(l2, c2) ==> l == l2 && c == c2
  {
  }

  /** Character `POS(l, c)` of the written board is the piece on cell (l, c). */
  lemma TextoNoIndice(t: Tabuleiro, l: int, c: int)
    requires PosValida(l, c)
    ensures |TextoTabuleiro(t)| == 72
    ensures TextoTabuleiro(t)[IndicePos(l, c)] == Celula(t, l, c)
  {
    TextoNaPosicao(t, l, c);
  }

  // ---------------------------------------------------------------------------
  // Geometry

  /** `mov_possivel(tipo, lo, co, ld, cd)`: the geometry of one step (`'m'`) or one
      hop (`'s'`). */
  predicate MovPossivel(tipo: char, lo: int, co: int, ld: int, cd: int)
  {
    if !PosValida(lo, co) || !PosValida(ld, cd) then false
    else
      var distl, distc := Abs(lo - ld), Abs(co - cd);
      if distl == 0 && distc == 0 then false
      else if tipo == 'm' then
        if lo == 7 && distl == 0 then distc == 2
        else if distl > 1 || distc > 1 then false
        else if (lo + co) % 2 != 0 && distl + distc > 1 then false
        else if lo == 5 && ld == 6 && co != 3 then false
        else if lo == 6 && co % 2 == 0 && ((ld == 5 && cd != 3) || (ld == 7 && cd == 3)) then false
        else true
      else if tipo == 's' then
        if lo == 7 && distl == 0 then distc == 4
        else if distl == 0 || distl == 1 || distc == 0 || distc == 1 || distl + distc > 4 then false
        else if (lo + co) % 2 != 0 && distl + distc > 2 then false
        else if lo == 5 && ld == 7 && co != 3 then false
        else if lo == 6 && ld == 4 && ((co == 2 && cd != 4) || (co == 4 && cd != 2)) then false
        else if lo == 7 && cd != 3 then false
        else true
      else false
  }

  /** Nothing moves from or to an invalid position, nothing stays in place, and only
      the types `'m'` and `'s'` have a geometry. */
  lemma MovPossivelExige(tipo: char, lo: int, co: int, ld: int, cd: int)
    requires MovPossivel(tipo, lo, co, ld, cd)
    ensures PosValida(lo, co) && PosValida(ld, cd)
    ensures lo != ld || co != cd
    ensures tipo == 'm' || tipo == 's'
  {
  }

  /** A step is the lateral two-column step along row 7, or a one-cell step that is
      orthogonal from an odd cell and avoids the apex restrictions. */
  lemma MovPossivelPasso(lo: int, co: int, ld: int, cd: int)
    ensures MovPossivel('m', lo, co, ld, cd) <==>
      && PosValida(lo, co) && PosValida(ld, cd)
      && (|| (lo == 7 && ld == 7 && Abs(co - cd) == 2)
          || (&& !(lo == 7 && ld == 7)
              && Abs(lo - ld) <= 1 && Abs(co - cd) <= 1 && (lo != ld || co != cd)
              && ((lo + co) % 2 != 0 ==> Abs(lo - ld) + Abs(co - cd) == 1)
              && (lo == 5 && ld == 6 ==> co == 3)
              && (lo == 6 && co % 2 == 0 && ld == 5 ==> cd == 3)
              && (lo == 6 && co % 2 == 0 && ld == 7 ==> cd != 3)))
  {
  }

  /** A hop is the lateral four-column jump along row 7, or a 2x2 diagonal jump from an
      even cell that the apex exceptions allow; in particular every orthogonal jump
      off row 7 is refused. */
  lemma MovPossivelSalto(lo: int, co: int, ld: int, cd: int)
    ensures MovPossivel('s', lo, co, ld, cd) <==>
      && PosValida(lo, co) && PosValida(ld, cd)
      && (|| (lo == 7 && ld == 7 && Abs(co - cd) == 4)
          || (&& !(lo == 7 && ld == 7)
              && Abs(lo - ld) == 2 && Abs(co - cd) == 2
              && (lo + co) % 2 == 0
              && (lo == 5 && ld == 7 ==> co == 3)
              && (lo == 6 && ld == 4 && co == 2 ==> cd == 4)
              && (lo == 6 && ld == 4 && co == 4 ==> cd == 2)
              && (lo == 7 ==> cd == 3)))
    ensures (lo == ld || co == cd) && !(lo == 7 && ld == 7) ==> !MovPossivel('s', lo, co, ld, cd)
  {
  }

  // ---------------------------------------------------------------------------
  // The referee against the engine's rules (both as written)

  /** Off row 7 the referee's hop rule and the engine's `_salto_valido` agree on the
      cells: neither starts nor lands on row 7, and the two decide alike. */
  lemma SaltoForaDaLinha7(o: Pos, d: Pos)
    requires EhCelula(o) && EhCelula(d)
    requires o.l != 7 && d.l != 7
    ensures MovPossivel('s', o.l, o.c, d.l, d.c) <==> SaltoValido(o, Meio(o, d), d)
  {
    PosValidaCelula(o.l, o.c);
    PosValidaCelula(d.l, d.c);
    MovPossivelSalto(o.l, o.c, d.l, d.c);
    SaltoValidoCasos(o, Meio(o, d), d);
  }

  /** On row 7 they differ. The engine lets the jaguar jump from (7, 3) over (6, 2) to
      (5, 1), which the referee refuses (`lo == 7` needs a landing column 3); the
      referee accepts the jump from (5, 3) over (6, 2) to (7, 1), which the engine
      refuses (`ld == 7` needs a landing column 3). */
  lemma SaltosDivergentes()
    ensures SaltoValido(Pos(7, 3), Pos(6, 2), Pos(5, 1)) && Destino(Pos(7, 3), Pos(6, 2)) == Pos(5, 1)
    ensures !MovPossivel('s', 7, 3, 5, 1)
    ensures MovPossivel('s', 5, 3, 7, 1)
    ensures !SaltoValido(Pos(5, 3), Pos(6, 2), Pos(7, 1))
  {
  }

  /** The engine's table lets a piece step from (5, 2) down to (6, 2) through the
      parity filter, and the referee refuses that step (from row 5 to row 6 only
      column 3 may step). */
  lemma PassoDivergente()
    ensures Pos(6, 2) in Vizinhos(Pos(5, 2)) && ParidadePermite(Pos(5, 2), Pos(6, 2))
    ensures !MovPossivel('m', 5, 2, 6, 2)
  {
    VizinhosDaEntrada(21);
  }

  /** A 72-character board text with the jaguar on (7, 1), dogs on (6, 2) and (5, 3), and
      every other character `'-'`. */
  function TextoCantoInferior(): string
  {
    seq(72, i => if i == IndicePos(7, 1) then 'o' else if i == IndicePos(6, 2) || i == IndicePos(5, 3) then 'c' else '-')
  }

  /** The victory scan only tries the 3x3 offsets around the jaguar, so it never tests
      the two-column step along row 7 that the step rule accepts: on this board the dogs
      are declared winners although the jaguar can step from (7, 1) to (7, 3). */
  lemma VitoriaSemPassoLateral()
    ensures |TextoCantoInferior()| == 72
    ensures Venceu('c', TextoCantoInferior())
    ensures MovPossivel('m', 7, 1, 7, 3)
    ensures TextoCantoInferior()[IndicePos(7, 1)] == 'o' && TextoCantoInferior()[IndicePos(7, 3)] == '-'
  {
    var tab := TextoCantoInferior();
    forall i, j | -1 <= i <= 1 && -1 <= j <= 1
      ensures !PassoLivre(tab, 7, 1, i, j) && !SaltoLivre(tab, 7, 1, i, j)
    {
    }
  }

  // ---------------------------------------------------------------------------
  // Reading a move line

  /** What `parse` returns when it does not return five `None`s. */
  datatype Jogada = Jogada(lado: char, tipo: char, numMov: int, movL: seq<int>, movC: seq<int>)

  /** The first `k` coordinate pairs read from `parts`, starting at index `inicio`;
      `None` where an index is missing or a token is not an integer. */
  function LerPares(parts: seq<string>, inicio: int, k: nat): (r: Option<(seq<int>, seq<int>)>)
    requires inicio >= 0
    ensures r.Some? ==> |r.value.0| == k && |r.value.1| == k
  {
    if k == 0 then Some(([], []))
    else
      match LerPares(parts, inicio, k - 1)
      case None => None
      case Some(prev) =>
        var idx := inicio + 2 * (k - 1);
        if idx + 1 < |parts| && ParseInt(parts[idx]).Some? && ParseInt(parts[idx + 1]).Some? then
          Some((prev.0 + [ParseInt(parts[idx]).value], prev.1 + [ParseInt(parts[idx + 1]).value]))
        else None
  }

  /** The result of `parse(jogada_str)`: `None` for the five `None`s. A line of one
      word makes the source fail on `parts[1]`, so it is excluded. */
  function Interpretar(s: string): Option<Jogada>
    requires |Words(Strip(s))| != 1
  {
    InterpretarPartes(Words(Strip(s)))
  }

  /** `parse` on the words of the stripped line. */
  function InterpretarPartes(parts: seq<string>): Option<Jogada>
    requires |parts| != 1
  {
    if parts == [] then None
    else if (parts[0] != "c" && parts[0] != "o") || (parts[1] != "n" && parts[1] != "m" && parts[1] != "s") then None
    else
      var lado, tipo := parts[0][0], parts[1][0];
      if tipo == 'm' then
        match LerPares(parts, 2, 2)
        case None => None
        case Some(cs) => Some(Jogada(lado, 'm', 1, cs.0, cs.1))
      else if tipo == 's' then
        if |parts| < 3 then None
        else
          match ParseInt(parts[2])
          case None => None
          case Some(n) =>
            if n < 1 then None
            else
              match LerPares(parts, 3, n + 1)
              case None => None
              case Some(cs) => Some(Jogada(lado, 's', n, cs.0, cs.1))
      else Some(Jogada(lado, 'n', 0, [], []))
  }

  /** `parse`: split the line, check side and type, then read the coordinates with a
      moving index. */
  method Parse(jogadaStr: string) returns (r: Option<Jogada>)
    requires |Words(Strip(jogadaStr))| != 1
    ensures r == Interpretar(jogadaStr)
  {
    var parts := Words(Strip(jogadaStr));
    if parts == [] {
      return None;
    }
    var ladoTok, tipoTok := parts[0], parts[1];
    if (ladoTok != "c" && ladoTok != "o") || (tipoTok != "n" && tipoTok != "m" && tipoTok != "s") {
      return None;
    }
    var lado, tipo := ladoTok[0], tipoTok[0];
    if tipo == 'm' {
      var pares := LerCoordenadas(parts, 2, 2);
      if pares.None? {
        return None;
      }
      return Some(Jogada(lado, 'm', 1, pares.value.0, pares.value.1));
    } else if tipo == 's' {
      if |parts| < 3 || ParseInt(parts[2]).None? {
        return None;
      }
      var numMov := ParseInt(parts[2]).value;
      if numMov < 1 {
        return None;
      }
      var pares := LerCoordenadas(parts, 3, numMov + 1);
      if pares.None? {
        return None;
      }
      return Some(Jogada(lado, 's', numMov, pares.value.0, pares.value.1));
    }
    return Some(Jogada(lado, 'n', 0, [], []));
  }

  /** The coordinate loop of `parse`: `quantos` pairs of integers from index `inicio`
      on, appended to `mov_l` and `mov_c` while the index advances by two. */
  method LerCoordenadas(parts: seq<string>, inicio: nat, quantos: nat) returns (r: Option<(seq<int>, seq<int>)>)
    ensures r == LerPares(parts, inicio, quantos)
  {
    var movL, movC := [], [];
    var idx := inicio;
    for k := 0 to quantos
      invariant idx == inicio + 2 * k
      invariant LerPares(parts, inicio, k) == Some((movL, movC))
    {
      if idx + 1 >= |parts| || ParseInt(parts[idx]).None? || ParseInt(parts[idx + 1]).None? {
        LerParesFalha(parts, inicio, k + 1, quantos);
        return None;
      }
      movL := movL + [ParseInt(parts[idx]).value];
      movC := movC + [ParseInt(parts[idx + 1]).value];
      idx := idx + 2;
    }
    return Some((movL, movC));
  }

  /** What a successful `parse` returns: a side in {c, o}; two coordinates and one move
      for `'m'`; at least one hop and one coordinate more than hops for `'s'`; nothing
      for `'n'`. An empty line, an unknown side or type, and a hop count below one are
      refused. */
  lemma InterpretarForma(parts: seq<string>)
    requires |parts| != 1
    ensures parts == [] ==> InterpretarPartes(parts).None?
    ensures |parts| >= 2 && parts[0] != "c" && parts[0] != "o" ==> InterpretarPartes(parts).None?
    ensures InterpretarPartes(parts).Some? ==>
      var j := InterpretarPartes(parts).value;
      && (j.lado == 'c' || j.lado == 'o')
      && (j.tipo == 'm' ==> j.numMov == 1 && |j.movL| == 2 && |j.movC| == 2)
      && (j.tipo == 's' ==> j.numMov >= 1 && |j.movL| == j.numMov + 1 && |j.movC| == j.numMov + 1)
      && (j.tipo == 'n' ==> j.numMov == 0 && j.movL == [] && j.movC == [])
      && (j.tipo == 'm' || j.tipo == 's' || j.tipo == 'n')
  {
  }

  /** The rows of the cells of `ps`. */
  function Linhas(ps: seq<Pos>): (r: seq<int>)
    ensures |r| == |ps| && forall k :: 0 <= k < |ps| ==> r[k] == ps[k].l
  {
    if ps == [] then [] else Linhas(ps[..|ps| - 1]) + [ps[|ps| - 1].l]
  }

  /** The columns of the cells of `ps`. */
  function Colunas(ps: seq<Pos>): (r: seq<int>)
    ensures |r| == |ps| && forall k :: 0 <= k < |ps| ==> r[k] == ps[k].c
  {
    if ps == [] then [] else Colunas(ps[..|ps| - 1]) + [ps[|ps| - 1].c]
  }

  /** Reading stops for good at the first missing or malformed pair. */
  lemma {:induction false} LerParesFalha(parts: seq<string>, inicio: int, k: nat, k2: nat)
    requires inicio >= 0 && k <= k2
    requires LerPares(parts, inicio, k).None?
    ensures LerPares(parts, inicio, k2).None?
    decreases k2 - k
  {
    if k < k2 {
      LerParesFalha(parts, inicio, k + 1, k2);
    }
  }

  /** Pairs whose tokens read as `ls` and `cs` are read back as `ls` and `cs`. */
  lemma {:induction false} LerParesEscritos(parts: seq<string>, inicio: nat, ls: seq<int>, cs: seq<int>, k: nat)
    requires k <= |ls| && k <= |cs| && inicio + 2 * k <= |parts|
    requires forall j :: 0 <= j < k ==>
      ParseInt(parts[inicio + 2 * j]) == Some(ls[j]) && ParseInt(parts[inicio + 2 * j + 1]) == Some(cs[j])
    ensures LerPares(parts, inicio, k) == Some((ls[..k], cs[..k]))
    decreases k
  {
    if k > 0 {
      LerParesEscritos(parts, inicio, ls, cs, k - 1);
      LerParUm(parts, inicio, k, ls[..k - 1], cs[..k - 1], ls[k - 1], cs[k - 1]);
      assert ls[..k] == ls[..k - 1] + [ls[k - 1]];
      assert cs[..k] == cs[..k - 1] + [cs[k - 1]];
    }
  }

  lemma LerParUm(parts: seq<string>, inicio: nat, k: nat, ls: seq<int>, cs: seq<int>, a: int, b: int)
    requires k > 0 && inicio + 2 * k <= |parts|
    requires LerPares(parts, inicio, k - 1) == Some((ls, cs))
    requires ParseInt(parts[inicio + 2 * (k - 1)]) == Some(a)
    requires ParseInt(parts[inicio + 2 * (k - 1) + 1]) == Some(b)
    ensures LerPares(parts, inicio, k) == Some((ls + [a], cs + [b]))
  {
  }

  /** The coordinates of a written move are read back as its rows and columns. */
  lemma LerParesCoordenadas(prefixo: seq<string>, ps: seq<Pos>)
    ensures LerPares(prefixo + Coordenadas(ps), |prefixo|, |ps|) == Some((Linhas(ps), Colunas(ps)))
  {
    var parts := prefixo + Coordenadas(ps);
    var ls, cs := Linhas(ps), Colunas(ps);
    forall j | 0 <= j < |ps|
      ensures ParseInt(parts[|prefixo| + 2 * j]) == Some(ls[j]) && ParseInt(parts[|prefixo| + 2 * j + 1]) == Some(cs[j])
    {
      CoordenadaLida(prefixo, ps, j);
    }
    LerParesTodos(parts, |prefixo|, ls, cs);
  }

  lemma LerParesTodos(parts: seq<string>, inicio: nat, ls: seq<int>, cs: seq<int>)
    requires |ls| == |cs| && inicio + 2 * |ls| <= |parts|
    requires forall j :: 0 <= j < |ls| ==>
      ParseInt(parts[inicio + 2 * j]) == Some(ls[j]) && ParseInt(parts[inicio + 2 * j + 1]) == Some(cs[j])
    ensures LerPares(parts, inicio, |ls|) == Some((ls, cs))
  {
    LerParesEscritos(parts, inicio, ls, cs, |ls|);
    assert ls[..|ls|] == ls && cs[..|cs|] == cs;
  }

  lemma CoordenadaLida(prefixo: seq<string>, ps: seq<Pos>, j: int)
    requires 0 <= j < |ps|
    ensures var parts := prefixo + Coordenadas(ps);
      && ParseInt(parts[|prefixo| + 2 * j]) == Some(ps[j].l)
      && ParseInt(parts[|prefixo| + 2 * j + 1]) == Some(ps[j].c)
  {
    var parts := prefixo + Coordenadas(ps);
    assert parts[|prefixo| + 2 * j] == Coordenadas(ps)[2 * j];
    assert parts[|prefixo| + 2 * j + 1] == Coordenadas(ps)[2 * j + 1];
    IntToStringRoundTrip(ps[j].l);
    IntToStringRoundTrip(ps[j].c);
  }

  /** Round trip: the referee reads back the side, the type, the hop count and every
      coordinate of a move the engine writes. */
  lemma InterpretarMovimento(lado: char, m: Movimento)
    requires lado == 'o' || lado == 'c'
    requires m.tipo == 'm' ==> |m.posicoes| == 2
    requires m.tipo == 's' ==> |m.posicoes| >= 2
    ensures |Words(Strip(MovimentoParaString(lado, m)))| >= 2
    ensures Interpretar(MovimentoParaString(lado, m)) == Some(
      if m.tipo == 'm' then Jogada(lado, 'm', 1, Linhas(m.posicoes), Colunas(m.posicoes))
      else if m.tipo == 's' then Jogada(lado, 's', |m.posicoes| - 1, Linhas(m.posicoes), Colunas(m.posicoes))
      else Jogada(lado, 'n', 0, [], []))
  {
    MovimentoPalavras(lado, m);
    if m.tipo == 'm' {
      InterpretarPasso(lado, m);
    } else if m.tipo == 's' {
      InterpretarSaltos(lado, m);
    } else {
      assert PalavrasMovimento(lado, m) == [[lado], "n"];
    }
  }

  lemma InterpretarPasso(lado: char, m: Movimento)
    requires lado == 'o' || lado == 'c'
    requires m.tipo == 'm' && |m.posicoes| == 2
    ensures InterpretarPartes(PalavrasMovimento(lado, m)) == Some(Jogada(lado, 'm', 1, Linhas(m.posicoes), Colunas(m.posicoes)))
  {
    var parts := PalavrasMovimento(lado, m);
    assert parts == [[lado], "m"] + Coordenadas(m.posicoes);
    LerParesCoordenadas([[lado], "m"], m.posicoes);
    assert parts[0] == [lado] && parts[1] == "m";
  }

  lemma InterpretarSaltos(lado: char, m: Movimento)
    requires lado == 'o' || lado == 'c'
    requires m.tipo == 's' && |m.posicoes| >= 2
    ensures InterpretarPartes(PalavrasMovimento(lado, m)) == Some(Jogada(lado, 's', |m.posicoes| - 1, Linhas(m.posicoes), Colunas(m.posicoes)))
  {
    var ps := m.posicoes;
    var n := |ps| - 1;
    var prefixo := [[lado], "s", IntToString(n)];
    var parts := prefixo + Coordenadas(ps);
    assert PalavrasMovimento(lado, m) == parts;
    IntToStringRoundTrip(n);
    LerParesCoordenadas(prefixo, ps);
    assert LerPares(parts, 3, n + 1) == Some((Linhas(ps), Colunas(ps)));
    assert parts[0] == [lado] && parts[1] == "s" && parts[2] == IntToString(n);
    InterpretarCadeia(parts, lado, n, Linhas(ps), Colunas(ps));
  }

  /** The words of a chain whose hop count and coordinates read back. */
  lemma InterpretarCadeia(parts: seq<string>, lado: char, n: int, ls: seq<int>, cs: seq<int>)
    requires lado == 'o' || lado == 'c'
    requires |parts| >= 3 && parts[0] == [lado] && parts[1] == "s"
    requires ParseInt(parts[2]) == Some(n) && n >= 1
    requires LerPares(parts, 3, n + 1) == Some((ls, cs))
    ensures InterpretarPartes(parts) == Some(Jogada(lado, 's', n, ls, cs))
  {
  }

  // ---------------------------------------------------------------------------
  // Playing a move on the board text

  /** `str.count(ch)` for one character: how many times it occurs in `s`. */
  function Conta(s: string, ch: char): nat
  {
    multiset(s)[ch]
  }

  /** Overwriting one character changes the count by what left and what came in. */
  lemma ContaAtualiza(s: string, i: int, x: char, ch: char)
    requires 0 <= i < |s|
    ensures Conta(s[i := x], ch) == Conta(s, ch) - (if s[i] == ch then 1 else 0) + (if x == ch then 1 else 0)
  {
    assert multiset(s[i := x]) == multiset(s) - multiset{s[i]} + multiset{x};
  }

  /** One hop of the loop of `aplica` from (l, c) to (ln, cn): it must be possible,
      land on `'-'` and jump a `'c'`; then the jaguar's cell and the jumped cell become
      `'-'` and the landing cell `'o'`. */
  function Pulo(tab: string, l: int, c: int, ln: int, cn: int): (r: Option<string>)
    requires |tab| >= 62
    ensures r.Some? ==> |r.value| == |tab|
  {
    if !MovPossivel('s', l, c, ln, cn) then None
    else
      var pn := IndicePos(ln, cn);
      if tab[pn] != '-' then None
      else
        var pm := IndicePos((l + ln) / 2, (c + cn) / 2);
        if tab[pm] != 'c' then None
        else Some(tab[IndicePos(l, c) := '-'][pm := '-'][pn := 'o'])
  }

  /** The hop loop of `aplica`, from hop `i` on, with the jaguar at (l, c): each hop
      is played on the board as updated so far, and the first refused hop refuses
      the move. */
  function Saltar(tab: string, l: int, c: int, i: int, numMov: int, movL: seq<int>, movC: seq<int>): Option<string>
    requires |tab| >= 62
    requires 1 <= i && numMov < |movL| && numMov < |movC|
    decreases numMov + 1 - i
  {
    if i > numMov then Some(tab)
    else
      match Pulo(tab, l, c, movL[i], movC[i])
      case None => None
      case Some(t) => Saltar(t, movL[i], movC[i], i + 1, numMov, movL, movC)
  }

  /** What `aplica` demands of its caller so that no index is out of range: a board
      reaching cell (7, 5), two coordinates for a step, and for a chain a first
      coordinate whose index the list accepts plus one coordinate per hop. */
  predicate AplicaDefinida(tab: string, lado: char, tipo: char, numMov: int, movL: seq<int>, movC: seq<int>)
  {
    && |tab| >= 62
    && (tipo == 'm' ==> |movL| >= 2 && |movC| >= 2)
    && (tipo != 'n' && tipo != 'm' ==>
          && |movL| >= 1 && |movC| >= 1 && numMov < |movL| && numMov < |movC|
          && (lado == 'o' ==> -|tab| <= IndicePos(movL[0], movC[0]) < |tab|))
  }

  /** `parse` lets through a jaguar chain whose first cell lies off the board: the line
      `o s 1 9 9 7 3` parses, and on a 72-character board `aplica` would read index
      `POS(9, 9) = 81` of the text before checking any hop, so the move falls outside
      `AplicaDefinida`. */
  lemma CadeiaForaDoTexto(tab: string)
    requires |tab| == 72
    ensures InterpretarPartes(["o", "s", "1", "9", "9", "7", "3"]) == Some(Jogada('o', 's', 1, [9, 7], [9, 3]))
    ensures !AplicaDefinida(tab, 'o', 's', 1, [9, 7], [9, 3])
  {
    var parts := ["o", "s", "1", "9", "9", "7", "3"];
    IntToStringRoundTrip(1);
    IntToStringRoundTrip(9);
    IntToStringRoundTrip(7);
    IntToStringRoundTrip(3);
    assert IntToString(1) == "1" && IntToString(9) == "9";
    assert IntToString(7) == "7" && IntToString(3) == "3";
    assert ParseInt(parts[2]) == Some(1);
    assert ParseInt(parts[3]) == Some(9) && ParseInt(parts[4]) == Some(9);
    assert ParseInt(parts[5]) == Some(7) && ParseInt(parts[6]) == Some(3);
    assert LerPares(parts, 3, 0) == Some(([], []));
    assert [] + [9] == [9];
    assert LerPares(parts, 3, 1) == Some(([9], [9]));
    assert [9] + [7] == [9, 7] && [9] + [3] == [9, 3];
    assert LerPares(parts, 3, 2) == Some(([9, 7], [9, 3]));
    InterpretarCadeia(parts, 'o', 1, [9, 7], [9, 3]);
  }

  /** The result of `aplica(tabuleiro, lado, tipo, num_mov, mov_l, mov_c)`: the new
      board text, or `None` for a refused move. Any type other than `'n'` and `'m'` is
      played as a chain. */
  function AplicaSpec(tab: string, lado: char, tipo: char, numMov: int, movL: seq<int>, movC: seq<int>): Option<string>
    requires AplicaDefinida(tab, lado, tipo, numMov, movL, movC)
  {
    if tipo == 'n' then Some(tab)
    else if tipo == 'm' then
      var l, c, ln, cn := movL[0], movC[0], movL[1], movC[1];
      if !MovPossivel('m', l, c, ln, cn) then None
      else
        var p, pn := IndicePos(l, c), IndicePos(ln, cn);
        if tab[p] != lado || tab[pn] != '-' then None
        else Some(tab[p := '-'][pn := lado])
    else if lado != 'o' then None
    else if tab[IndicePython(|tab|, IndicePos(movL[0], movC[0]))] != 'o' then None
    else Saltar(tab, movL[0], movC[0], 1, numMov, movL, movC)
  }

  /** `aplica`: copy the board text into a list, play the move on it in place, and
      join it back; `None` as soon as a check fails. */
  method Aplica(tabuleiro: string, lado: char, tipo: char, numMov: int, movL: seq<int>, movC: seq<int>)
    returns (r: Option<string>)
    requires AplicaDefinida(tabuleiro, lado, tipo, numMov, movL, movC)
    ensures r == AplicaSpec(tabuleiro, lado, tipo, numMov, movL, movC)
  {
    var tabList := tabuleiro;
    if tipo == 'n' {
      return Some(tabList);
    }
    if tipo == 'm' {
      var l, c, ln, cn := movL[0], movC[0], movL[1], movC[1];
      if !MovPossivel('m', l, c, ln, cn) {
        return None;
      }
      var p, pn := IndicePos(l, c), IndicePos(ln, cn);
      if tabList[p] != lado || tabList[pn] != '-' {
        return None;
      }
      tabList := tabList[p := '-'];
      tabList := tabList[pn := lado];
    } else {
      if lado != 'o' {
        return None;
      }
      var l, c := movL[0], movC[0];
      var p := IndicePos(l, c);
      if tabList[if p < 0 then p + |tabList| else p] != 'o' {
        return None;
      }
      r := JogarSaltos(tabList, l, c, numMov, movL, movC);
      return;
    }
    return Some(tabList);
  }

  /** The hop loop of `aplica` for a jaguar starting on (l, c). */
  method JogarSaltos(tabuleiro: string, l0: int, c0: int, numMov: int, movL: seq<int>, movC: seq<int>)
    returns (r: Option<string>)
    requires |tabuleiro| >= 62 && numMov < |movL| && numMov < |movC|
    ensures r == Saltar(tabuleiro, l0, c0, 1, numMov, movL, movC)
  {
    var tabList, l, c := tabuleiro, l0, c0;
    var i := 1;
    while i <= numMov
      invariant 1 <= i
      invariant |tabList| == |tabuleiro|
      invariant Saltar(tabuleiro, l0, c0, 1, numMov, movL, movC) == Saltar(tabList, l, c, i, numMov, movL, movC)
      decreases numMov + 1 - i
    {
      var ln, cn := movL[i], movC[i];
      var pulo := JogarPulo(tabList, l, c, ln, cn);
      if pulo.None? {
        return None;
      }
      tabList, l, c := pulo.value, ln, cn;
      i := i + 1;
    }
    return Some(tabList);
  }

  /** One pass of the hop loop: the three checks, then the three writes in place. */
  method JogarPulo(tabList: string, l: int, c: int, ln: int, cn: int) returns (r: Option<string>)
    requires |tabList| >= 62
    ensures r == Pulo(tabList, l, c, ln, cn)
  {
    if !MovPossivel('s', l, c, ln, cn) {
      return None;
    }
    var pn := IndicePos(ln, cn);
    if tabList[pn] != '-' {
      return None;
    }
    var lm, cm := (l + ln) / 2, (c + cn) / 2;
    var pm := IndicePos(lm, cm);
    if tabList[pm] != 'c' {
      return None;
    }
    var t := tabList[IndicePos(l, c) := '-'];
    t := t[pm := '-'];
    t := t[pn := 'o'];
    return Some(t);
  }

  /** `'n'` leaves the board as it is. A step is played exactly when it is possible,
      starts on the mover and ends on `'-'`, and then changes those two characters and
      no other. */
  lemma AplicaPasso(tab: string, lado: char, tipo: char, numMov: int, movL: seq<int>, movC: seq<int>)
    requires AplicaDefinida(tab, lado, tipo, numMov, movL, movC)
    requires tipo == 'n' || tipo == 'm'
    ensures tipo == 'n' ==> AplicaSpec(tab, lado, tipo, numMov, movL, movC) == Some(tab)
    ensures tipo == 'm' ==>
      var p, pn := IndicePos(movL[0], movC[0]), IndicePos(movL[1], movC[1]);
      var r := AplicaSpec(tab, lado, tipo, numMov, movL, movC);
      && (r.Some? <==> MovPossivel('m', movL[0], movC[0], movL[1], movC[1]) && tab[p] == lado && tab[pn] == '-')
      && (r.Some? ==>
            && |r.value| == |tab| && r.value[p] == '-' && r.value[pn] == lado
            && forall k :: 0 <= k < |tab| && k != p && k != pn ==> r.value[k] == tab[k])
  {
    if tipo == 'm' && MovPossivel('m', movL[0], movC[0], movL[1], movC[1]) {
      MovPossivelExige('m', movL[0], movC[0], movL[1], movC[1]);
      IndiceValido(movL[0], movC[0], movL[1], movC[1]);
      IndiceValido(movL[1], movC[1], movL[0], movC[0]);
    }
  }

  /** One hop of a chain: the three cells it touches are distinct characters. */
  lemma SaltoTocaTres(l: int, c: int, ln: int, cn: int)
    requires MovPossivel('s', l, c, ln, cn)
    ensures var p, pm, pn := IndicePos(l, c), IndicePos((l + ln) / 2, (c + cn) / 2), IndicePos(ln, cn);
      && 9 <= p <= 61 && 9 <= pn <= 61 && 9 <= pm <= 61
      && p != pn && p != pm && pm != pn
  {
    MovPossivelSalto(l, c, ln, cn);
    IndiceValido(l, c, ln, cn);
    IndiceValido(ln, cn, l, c);
  }

  /** Every hop the loop plays from a cell holding `'o'` removes exactly one dog and
      leaves the jaguar on its landing cell; the text keeps its length. */
  lemma {:induction false} SaltarConta(tab: string, l: int, c: int, i: int, numMov: int, movL: seq<int>, movC: seq<int>)
    requires |tab| >= 62
    requires 1 <= i && numMov < |movL| && numMov < |movC|
    requires i <= numMov ==> PosValida(l, c) && tab[IndicePos(l, c)] == 'o'
    ensures var r := Saltar(tab, l, c, i, numMov, movL, movC);
      r.Some? ==> |r.value| == |tab| && Conta(r.value, 'c') + (if i <= numMov then numMov + 1 - i else 0) == Conta(tab, 'c')
    decreases numMov + 1 - i
  {
    if i <= numMov {
      var p := Pulo(tab, l, c, movL[i], movC[i]);
      if p.Some? {
        PuloConta(tab, l, c, movL[i], movC[i]);
        SaltarConta(p.value, movL[i], movC[i], i + 1, numMov, movL, movC);
      }
    }
  }

  /** One hop from a cell holding `'o'` removes exactly one dog and leaves the jaguar
      on its landing cell. */
  lemma PuloConta(tab: string, l: int, c: int, ln: int, cn: int)
    requires |tab| >= 62
    requires PosValida(l, c) && tab[IndicePos(l, c)] == 'o'
    ensures var r := Pulo(tab, l, c, ln, cn);
      r.Some? ==> PosValida(ln, cn) && r.value[IndicePos(ln, cn)] == 'o' && Conta(r.value, 'c') + 1 == Conta(tab, 'c')
  {
    if Pulo(tab, l, c, ln, cn).Some? {
      TresEscritas(tab, l, c, ln, cn);
    }
  }

  lemma TresEscritas(tab: string, l: int, c: int, ln: int, cn: int)
    requires |tab| >= 62
    requires MovPossivel('s', l, c, ln, cn) && tab[IndicePos(l, c)] == 'o'
    requires tab[IndicePos(ln, cn)] == '-' && tab[IndicePos((l + ln) / 2, (c + cn) / 2)] == 'c'
    ensures var p, pm, pn := IndicePos(l, c), IndicePos((l + ln) / 2, (c + cn) / 2), IndicePos(ln, cn);
      var t := tab[p := '-'][pm := '-'][pn := 'o'];
      && PosValida(ln, cn) && t[pn] == 'o' && Conta(t, 'c') + 1 == Conta(tab, 'c')
  {
    SaltoTocaTres(l, c, ln, cn);
    MovPossivelExige('s', l, c, ln, cn);
    var p, pn := IndicePos(l, c), IndicePos(ln, cn);
    var pm := IndicePos((l + ln) / 2, (c + cn) / 2);
    var t1 := tab[p := '-'];
    var t2 := t1[pm := '-'];
    ContaAtualiza(tab, p, '-', 'c');
    ContaAtualiza(t1, pm, '-', 'c');
    ContaAtualiza(t2, pn, 'o', 'c');
  }

  /** A chain is played only for the jaguar from a cell holding `'o'`; when it is, the
      board keeps its length and loses exactly one dog per hop. */
  lemma AplicaSaltos(tab: string, lado: char, tipo: char, numMov: int, movL: seq<int>, movC: seq<int>)
    requires AplicaDefinida(tab, lado, tipo, numMov, movL, movC)
    requires tipo != 'n' && tipo != 'm'
    requires AplicaSpec(tab, lado, tipo, numMov, movL, movC).Some?
    ensures lado == 'o'
    ensures tab[IndicePython(|tab|, IndicePos(movL[0], movC[0]))] == 'o'
    ensures var r := AplicaSpec(tab, lado, tipo, numMov, movL, movC).value;
      |r| == |tab| && Conta(r, 'c') + (if numMov > 0 then numMov else 0) == Conta(tab, 'c')
  {
    var l, c := movL[0], movC[0];
    if 1 <= numMov && MovPossivel('s', l, c, movL[1], movC[1]) {
      MovPossivelExige('s', l, c, movL[1], movC[1]);
      IndiceValido(l, c, l, c);
    }
    SaltarConta(tab, l, c, 1, numMov, movL, movC);
  }

  // ---------------------------------------------------------------------------
  // Victory

  /** From (l, c) with offset (i, j): a possible step onto `'-'`. */
  predicate PassoLivre(tab: string, l: int, c: int, i: int, j: int)
    requires |tab| >= 62
  {
    MovPossivel('m', l, c, l + i, c + j) && tab[IndicePos(l + i, c + j)] == '-'
  }

  /** From (l, c) with offset (i, j): a possible hop over `'c'` onto `'-'`. */
  predicate SaltoLivre(tab: string, l: int, c: int, i: int, j: int)
    requires |tab| >= 62
  {
    MovPossivel('s', l, c, l + 2 * i, c + 2 * j)
    && tab[IndicePos(l + i, c + j)] == 'c' && tab[IndicePos(l + 2 * i, c + 2 * j)] == '-'
  }

  /** The jaguar on (l, c) has a step or a single hop among the 3x3 offsets. */
  predicate PodeMover(tab: string, l: int, c: int)
    requires |tab| >= 62
  {
    exists i, j :: -1 <= i <= 1 && -1 <= j <= 1 && (PassoLivre(tab, l, c, i, j) || SaltoLivre(tab, l, c, i, j))
  }

  /** What `vitoria(lado, tab)` decides: the jaguar wins with at most nine `'c'` on the
      board; for any other side, the dogs win when no `'o'` cell of the grid has a free
      step or hop among the 3x3 offsets around it. Those offsets never reach the
      two-column step or the four-column hop along row 7 (`VitoriaSemPassoLateral`). */
  predicate Venceu(lado: char, tab: string)
    requires |tab| >= 62
  {
    if lado == 'o' then Conta(tab, 'c') <= 9
    else forall l, c :: 1 <= l <= 7 && 1 <= c <= 5 && tab[IndicePos(l, c)] == 'o' ==> !PodeMover(tab, l, c)
  }

  /** `vitoria`: a count for the jaguar; for the dogs, a scan of the grid that returns
      `False` at the first jaguar cell with a move. */
  method Vitoria(lado: char, tab: string) returns (r: bool)
    requires |tab| >= 62
    ensures r == Venceu(lado, tab)
  {
    if lado == 'o' {
      return Conta(tab, 'c') <= 9;
    }
    for l := 1 to 8
      invariant forall l', c' :: 1 <= l' < l && 1 <= c' <= 5 && tab[IndicePos(l', c')] == 'o' ==> !PodeMover(tab, l', c')
    {
      for c := 1 to 6
        invariant forall l', c' :: 1 <= l' < l && 1 <= c' <= 5 && tab[IndicePos(l', c')] == 'o' ==> !PodeMover(tab, l', c')
        invariant forall c' :: 1 <= c' < c && tab[IndicePos(l, c')] == 'o' ==> !PodeMover(tab, l, c')
      {
        if tab[IndicePos(l, c)] == 'o' {
          var pode := MovimentoLivre(tab, l, c);
          if pode {
            return false;
          }
        }
      }
    }
    return true;
  }

  /** The offset loops of `vitoria` for the jaguar on (l, c): is there a free step or a
      free hop? */
  method MovimentoLivre(tab: string, l: int, c: int) returns (pode: bool)
    requires |tab| >= 62
    ensures pode == PodeMover(tab, l, c)
  {
    for i := -1 to 2
      invariant forall i', j' :: -1 <= i' < i && -1 <= j' <= 1 ==> !PassoLivre(tab, l, c, i', j') && !SaltoLivre(tab, l, c, i', j')
    {
      for j := -1 to 2
        invariant forall i', j' :: -1 <= i' < i && -1 <= j' <= 1 ==> !PassoLivre(tab, l, c, i', j') && !SaltoLivre(tab, l, c, i', j')
        invariant forall j' :: -1 <= j' < j ==> !PassoLivre(tab, l, c, i, j') && !SaltoLivre(tab, l, c, i, j')
      {
        if PassoLivre(tab, l, c, i, j) {
          return true;
        }
        if SaltoLivre(tab, l, c, i, j) {
          return true;
        }
      }
    }
    return false;
  }
}
