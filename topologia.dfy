/** The fixed board of the game (jogo.py, `EstadoJogo.ADJACENCIAS`): its 31 cells, the
    neighbour list of each, and the values the rest of the model is built from (a board is
    a dictionary from cell to piece, a move is a type tag with the cells it visits). */
module Topologia {

  /** A cell, as the source's `(linha, coluna)` tuple. */
  datatype Pos = Pos(l: int, c: int)

  /** A board: cell to piece, `'o'` the jaguar, `'c'` a dog, `'-'` empty. */
  type Tabuleiro = map<Pos, char>

  /** A move as the source builds it: `('m', [origem, destino])` for a step,
      `('s', [inicio, pouso1, ...])` for a capture chain. */
  datatype Movimento = Movimento(tipo: char, posicoes: seq<Pos>)

  /** The entries of the literal neighbour table, in the order it writes them. The
      table is not symmetric: (7, 3) lists (6, 2) and (6, 4), neither of which lists
      (7, 3). */
  const ENTRADAS: seq<(Pos, seq<Pos>)> := [
      (Pos(1, 1), [Pos(1, 2), Pos(2, 1), Pos(2, 2)]),
      (Pos(1, 2), [Pos(1, 1), Pos(1, 3), Pos(2, 1), Pos(2, 2), Pos(2, 3)]),
      (Pos(1, 3), [Pos(1, 2), Pos(1, 4), Pos(2, 2), Pos(2, 3), Pos(2, 4)]),
      (Pos(1, 4), [Pos(1, 3), Pos(1, 5), Pos(2, 3), Pos(2, 4), Pos(2, 5)]),
      (Pos(1, 5), [Pos(1, 4), Pos(2, 4), Pos(2, 5)]),
      (Pos(2, 1), [Pos(1, 1), Pos(1, 2), Pos(2, 2), Pos(3, 1), Pos(3, 2)]),
      (Pos(2, 2), [Pos(1, 1), Pos(1, 2), Pos(1, 3), Pos(2, 1), Pos(2, 3), Pos(3, 1), Pos(3, 2), Pos(3, 3)]),
      (Pos(2, 3), [Pos(1, 2), Pos(1, 3), Pos(1, 4), Pos(2, 2), Pos(2, 4), Pos(3, 2), Pos(3, 3), Pos(3, 4)]),
      (Pos(2, 4), [Pos(1, 3), Pos(1, 4), Pos(1, 5), Pos(2, 3), Pos(2, 5), Pos(3, 3), Pos(3, 4), Pos(3, 5)]),
      (Pos(2, 5), [Pos(1, 4), Pos(1, 5), Pos(2, 4), Pos(3, 4), Pos(3, 5)]),
      (Pos(3, 1), [Pos(2, 1), Pos(2, 2), Pos(3, 2), Pos(4, 1), Pos(4, 2)]),
      (Pos(3, 2), [Pos(2, 1), Pos(2, 2), Pos(2, 3), Pos(3, 1), Pos(3, 3), Pos(4, 1), Pos(4, 2), Pos(4, 3)]),
      (Pos(3, 3), [Pos(2, 2), Pos(2, 3), Pos(2, 4), Pos(3, 2), Pos(3, 4), Pos(4, 2), Pos(4, 3), Pos(4, 4)]),
      (Pos(3, 4), [Pos(2, 3), Pos(2, 4), Pos(2, 5), Pos(3, 3), Pos(3, 5), Pos(4, 3), Pos(4, 4), Pos(4, 5)]),
      (Pos(3, 5), [Pos(2, 4), Pos(2, 5), Pos(3, 4), Pos(4, 4), Pos(4, 5)]),
      (Pos(4, 1), [Pos(3, 1), Pos(3, 2), Pos(4, 2), Pos(5, 1), Pos(5, 2)]),
      (Pos(4, 2), [Pos(3, 1), Pos(3, 2), Pos(3, 3), Pos(4, 1), Pos(4, 3), Pos(5, 1), Pos(5, 2), Pos(5, 3)]),
      (Pos(4, 3), [Pos(3, 2), Pos(3, 3), Pos(3, 4), Pos(4, 2), Pos(4, 4), Pos(5, 2), Pos(5, 3), Pos(5, 4)]),
      (Pos(4, 4), [Pos(3, 3), Pos(3, 4), Pos(3, 5), Pos(4, 3), Pos(4, 5), Pos(5, 3), Pos(5, 4), Pos(5, 5)]),
      (Pos(4, 5), [Pos(3, 4), Pos(3, 5), Pos(4, 4), Pos(5, 4), Pos(5, 5)]),
      (Pos(5, 1), [Pos(4, 1), Pos(4, 2), Pos(5, 2)]),
      (Pos(5, 2), [Pos(4, 1), Pos(4, 2), Pos(4, 3), Pos(5, 1), Pos(5, 3), Pos(6, 2)]),
      (Pos(5, 3), [Pos(4, 2), Pos(4, 3), Pos(4, 4), Pos(5, 2), Pos(5, 4), Pos(6, 2), Pos(6, 3), Pos(6, 4)]),
      (Pos(5, 4), [Pos(4, 3), Pos(4, 4), Pos(4, 5), Pos(5, 3), Pos(5, 5), Pos(6, 4)]),
      (Pos(5, 5), [Pos(4, 4), Pos(4, 5), Pos(5, 4)]),
      (Pos(6, 2), [Pos(5, 2), Pos(5, 3), Pos(6, 3), Pos(7, 1)]),
      (Pos(6, 3), [Pos(5, 3), Pos(6, 2), Pos(6, 4), Pos(7, 1), Pos(7, 3), Pos(7, 5)]),
      (Pos(6, 4), [Pos(5, 3), Pos(5, 4), Pos(6, 3), Pos(7, 5)]),
      (Pos(7, 1), [Pos(6, 2), Pos(6, 3), Pos(7, 3)]),
      (Pos(7, 3), [Pos(6, 2), Pos(6, 3), Pos(6, 4), Pos(7, 1), Pos(7, 5)]),
      (Pos(7, 5), [Pos(6, 3), Pos(6, 4), Pos(7, 3)])
    ]

  /** The dictionary a literal with entries `es` builds: each entry inserted in turn. */
  function Tabela(es: seq<(Pos, seq<Pos>)>): map<Pos, seq<Pos>>
  {
    if es == [] then map[] else Tabela(es[..|es| - 1])[es[|es| - 1].0 := es[|es| - 1].1]
  }

  /** `EstadoJogo.ADJACENCIAS`. */
  const ADJACENCIAS: map<Pos, seq<Pos>> := Tabela(ENTRADAS)

  /** The cells of the table in its own (row by row) order, which is also the order in
      which every board the program builds inserts its keys. */
  const CELULAS: seq<Pos> := [
      Pos(1, 1), Pos(1, 2), Pos(1, 3), Pos(1, 4), Pos(1, 5),
      Pos(2, 1), Pos(2, 2), Pos(2, 3), Pos(2, 4), Pos(2, 5),
      Pos(3, 1), Pos(3, 2), Pos(3, 3), Pos(3, 4), Pos(3, 5),
      Pos(4, 1), Pos(4, 2), Pos(4, 3), Pos(4, 4), Pos(4, 5),
      Pos(5, 1), Pos(5, 2), Pos(5, 3), Pos(5, 4), Pos(5, 5),
      Pos(6, 2), Pos(6, 3), Pos(6, 4),
      Pos(7, 1), Pos(7, 3), Pos(7, 5)
    ]

  /** The shape of the board: rows 1-5 in full, columns 2-4 of row 6 and columns 1,
      3, 5 of row 7. */
  predicate NaGrade(p: Pos)
  {
    || (1 <= p.l <= 5 && 1 <= p.c <= 5)
    || (p.l == 6 && 2 <= p.c <= 4)
    || (p.l == 7 && (p.c == 1 || p.c == 3 || p.c == 5))
  }

  /** `p in ADJACENCIAS`: `p` is a cell of the board. */
  predicate EhCelula(p: Pos)
  {
    p in ADJACENCIAS
  }

  /** `ADJACENCIAS.get(p, [])`. */
  function Vizinhos(p: Pos): seq<Pos>
  {
    if p in ADJACENCIAS then ADJACENCIAS[p] else []
  }

  /** `tabuleiro.get(p) == peca`. */
  predicate Tem(t: Tabuleiro, p: Pos, peca: char)
  {
    p in t && t[p] == peca
  }

  function Abs(x: int): nat
  {
    if x < 0 then -x else x
  }

  /** Only the keys of the entries are keys of the table built from them. */
  lemma {:induction false} TabelaChaves(es: seq<(Pos, seq<Pos>)>, p: Pos)
    ensures p in Tabela(es) <==> exists i :: 0 <= i < |es| && es[i].0 == p
  {
    if es != [] {
      var front := es[..|es| - 1];
      TabelaChaves(front, p);
      if p in Tabela(front) {
        var i :| 0 <= i < |front| && front[i].0 == p;
        assert es[i].0 == p;
      }
      if exists i :: 0 <= i < |es| && es[i].0 == p {
        var i :| 0 <= i < |es| && es[i].0 == p;
        if i < |front| { assert front[i].0 == p; }
      }
    }
  }

  /** With distinct keys, each key maps to the neighbour list of its entry. */
  lemma {:induction false} TabelaValor(es: seq<(Pos, seq<Pos>)>, i: int)
    requires 0 <= i < |es|
    requires forall a, b :: 0 <= a < b < |es| ==> es[a].0 != es[b].0
    ensures es[i].0 in Tabela(es) && Tabela(es)[es[i].0] == es[i].1
  {
    var front := es[..|es| - 1];
    if i < |front| {
      TabelaValor(front, i);
      assert es[|es| - 1].0 != es[i].0;
    }
  }

  lemma EntradasChaves()
    ensures |ENTRADAS| == 31
    ensures forall i :: 0 <= i < 31 ==> ENTRADAS[i].0 == CELULAS[i]
  {
  }

  /** The keys of the table are exactly the cells listed in CELULAS. */
  lemma ChavesTabela(p: Pos)
    ensures EhCelula(p) <==> p in CELULAS
  {
    TabelaChaves(ENTRADAS, p);
    EntradasChaves();
    if p in CELULAS {
      var i :| 0 <= i < |CELULAS| && CELULAS[i] == p;
      assert ENTRADAS[i].0 == p;
    }
  }

  lemma GrausDasEntradas()
    ensures forall i :: 0 <= i < |ENTRADAS| ==> |ENTRADAS[i].1| <= 8
  {
  }

  /** No cell has more than eight listed neighbours, and a position off the board has
      none. */
  lemma GrauMaximo(p: Pos)
    ensures |Vizinhos(p)| <= 8
  {
    ChavesTabela(p);
    if p in CELULAS {
      var i :| 0 <= i < |CELULAS| && CELULAS[i] == p;
      EntradasChaves();
      VizinhosDaEntrada(i);
      GrausDasEntradas();
    }
  }

  /** The place of a cell of the grid in CELULAS, counted row by row. */
  function NumeroCelula(p: Pos): int
  {
    if p.l <= 5 then 5 * (p.l - 1) + (p.c - 1)
    else if p.l == 6 then 25 + (p.c - 2)
    else 28 + (p.c - 1) / 2
  }

  lemma NumerosDasCelulas()
    ensures |CELULAS| == 31
    ensures forall i :: 0 <= i < 31 ==> NumeroCelula(CELULAS[i]) == i
  {
  }

  lemma CelulasDistintas()
    ensures |CELULAS| == 31
    ensures forall i, j :: 0 <= i < j < |CELULAS| ==> CELULAS[i] != CELULAS[j]
  {
    NumerosDasCelulas();
  }

  /** The cells of the table are exactly the cells of the grid. */
  lemma FormaDasCelulas(p: Pos)
    ensures EhCelula(p) <==> NaGrade(p)
  {
    ChavesTabela(p);
    CelulasNaGrade();
    if NaGrade(p) {
      CelulaNaLista(p);
    }
  }

  lemma CelulasNaGrade()
    ensures forall i :: 0 <= i < |CELULAS| ==> NaGrade(CELULAS[i])
  {
  }

  lemma CelulaNaLista(p: Pos)
    requires NaGrade(p)
    ensures 0 <= NumeroCelula(p) < |CELULAS| && CELULAS[NumeroCelula(p)] == p
  {
  }

  /** CELULAS lists each cell of the table once, and nothing else. */
  lemma ListaDasCelulas(p: Pos)
    ensures EhCelula(p) <==> p in CELULAS
    ensures |CELULAS| == 31
    ensures forall i, j :: 0 <= i < j < |CELULAS| ==> CELULAS[i] != CELULAS[j]
  {
    ChavesTabela(p);
    CelulasDistintas();
  }

  /** `q` may be listed as a neighbour of `p`: another cell of the grid, at most one
      row and two columns away. */
  predicate VizinhoBom(p: Pos, q: Pos)
  {
    q != p && NaGrade(q) && Abs(q.l - p.l) <= 1 && Abs(q.c - p.c) <= 2
  }

  /** Each of `rs` may be listed as a neighbour of `p`, checked one by one. */
  predicate VizinhosBons(p: Pos, rs: seq<Pos>)
  {
    forall j :: 0 <= j < |rs| ==> VizinhoBom(p, rs[j])
  }

  lemma EntradasBoasLinha1()
    ensures forall i :: 0 <= i < 5 ==> VizinhosBons(ENTRADAS[i].0, ENTRADAS[i].1)
  {
  }

  lemma EntradasBoasLinha2()
    ensures forall i :: 5 <= i < 10 ==> VizinhosBons(ENTRADAS[i].0, ENTRADAS[i].1)
  {
  }

  lemma EntradasBoasLinha3()
    ensures forall i :: 10 <= i < 15 ==> VizinhosBons(ENTRADAS[i].0, ENTRADAS[i].1)
  {
    EntradasBoasLinha3Inicio();
    EntradasBoasLinha3Fim();
  }

  lemma EntradasBoasLinha3Inicio()
    ensures forall i :: 10 <= i < 13 ==> VizinhosBons(ENTRADAS[i].0, ENTRADAS[i].1)
  {
  }

  lemma EntradasBoasLinha3Fim()
    ensures forall i :: 13 <= i < 15 ==> VizinhosBons(ENTRADAS[i].0, ENTRADAS[i].1)
  {
  }

  lemma EntradasBoasLinha4()
    ensures forall i :: 15 <= i < 20 ==> VizinhosBons(ENTRADAS[i].0, ENTRADAS[i].1)
  {
    EntradasBoasLinha4Inicio();
    EntradasBoasLinha4Fim();
  }

  lemma EntradasBoasLinha4Inicio()
    ensures forall i :: 15 <= i < 18 ==> VizinhosBons(ENTRADAS[i].0, ENTRADAS[i].1)
  {
  }

  lemma EntradasBoasLinha4Fim()
    ensures forall i :: 18 <= i < 20 ==> VizinhosBons(ENTRADAS[i].0, ENTRADAS[i].1)
  {
  }

  lemma EntradasBoasLinha5()
    ensures forall i :: 20 <= i < 25 ==> VizinhosBons(ENTRADAS[i].0, ENTRADAS[i].1)
  {
  }

  lemma EntradasBoasLinha6()
    ensures forall i :: 25 <= i < 28 ==> VizinhosBons(ENTRADAS[i].0, ENTRADAS[i].1)
  {
  }

  lemma EntradasBoasLinha7()
    ensures forall i :: 28 <= i < 31 ==> VizinhosBons(ENTRADAS[i].0, ENTRADAS[i].1)
  {
  }

  lemma EntradasBoas()
    ensures forall i :: 0 <= i < |ENTRADAS| ==> VizinhosBons(ENTRADAS[i].0, ENTRADAS[i].1)
  {
    EntradasBoasLinha1();
    EntradasBoasLinha2();
    EntradasBoasLinha3();
    EntradasBoasLinha4();
    EntradasBoasLinha5();
    EntradasBoasLinha6();
    EntradasBoasLinha7();
    EntradasChaves();
  }

  /** Every listed neighbour is another cell of the board, at most one row and two
      columns away. */
  lemma VizinhoEhCelula(p: Pos, q: Pos)
    requires q in Vizinhos(p)
    ensures EhCelula(p) && EhCelula(q) && p != q
    ensures Abs(q.l - p.l) <= 1 && Abs(q.c - p.c) <= 2
  {
    TabelaChaves(ENTRADAS, p);
    var i :| 0 <= i < |ENTRADAS| && ENTRADAS[i].0 == p;
    EntradasChaves();
    CelulasDistintas();
    TabelaValor(ENTRADAS, i);
    EntradasBoas();
    FormaDasCelulas(q);
  }

  /** The neighbours of a cell are the list its entry writes. */
  lemma VizinhosDaEntrada(i: int)
    requires 0 <= i < 31
    ensures Vizinhos(ENTRADAS[i].0) == ENTRADAS[i].1
  {
    EntradasChaves();
    CelulasDistintas();
    TabelaValor(ENTRADAS, i);
  }

  /** The neighbours of the centre cell (3, 3), where the jaguar starts. */
  lemma VizinhosDoCentro()
    ensures Vizinhos(Pos(3, 3)) == [Pos(2, 2), Pos(2, 3), Pos(2, 4), Pos(3, 2), Pos(3, 4), Pos(4, 2), Pos(4, 3), Pos(4, 4)]
  {
    VizinhosDaEntrada(12);
  }
}
