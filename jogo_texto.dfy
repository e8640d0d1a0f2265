/** The text formats of jogo.py: the nine-line board picture `para_string` writes and
    `_parse_tabuleiro` reads, and the move line `movimento_para_string` writes. */
module JogoTexto {
  import opened Texto
  import opened Topologia

  // ---------------------------------------------------------------------------
  // Writing the board

  /** The border line above and below the board. */
  const BORDA: string := "#######"

  /** The character `para_string` writes for column `c` of row `l`: the piece when the
      board has the cell, otherwise a blank in the four gaps of rows 6 and 7 and `'-'`
      anywhere else. */
  function Celula(t: Tabuleiro, l: int, c: int): char
  {
    if Pos(l, c) in t then t[Pos(l, c)]
    else if (l == 6 && (c == 1 || c == 5)) || (l == 7 && (c == 2 || c == 4)) then ' '
    else '-'
  }

  /** Columns `1 .. n - 1` of row `l`, as the inner loop of `para_string` appends them. */
  function CelulasAte(t: Tabuleiro, l: int, n: int): (r: string)
    ensures |r| == if n <= 1 then 0 else n - 1
    ensures forall c :: 1 <= c < n ==> r[c - 1] == Celula(t, l, c)
  {
    if n <= 1 then [] else CelulasAte(t, l, n - 1) + [Celula(t, l, n - 1)]
  }

  /** Row `l` as written: `#`, the five columns, `#`. */
  function LinhaTexto(t: Tabuleiro, l: int): string
  {
    "#" + CelulasAte(t, l, 6) + "#"
  }

  /** The lines written before row `n`: the top border and rows `1 .. n - 1`. */
  function LinhasAte(t: Tabuleiro, n: int): (r: seq<string>)
    ensures |r| == if n <= 1 then 1 else n
    ensures r[0] == BORDA
    ensures forall l :: 1 <= l < n ==> r[l] == LinhaTexto(t, l)
  {
    if n <= 1 then [BORDA] else LinhasAte(t, n - 1) + [LinhaTexto(t, n - 1)]
  }

  /** `para_string`: the nine lines joined by newlines, with a final newline. */
  function TextoTabuleiro(t: Tabuleiro): string
  {
    Join(LinhasAte(t, 8) + [BORDA], '\n') + "\n"
  }

  // ---------------------------------------------------------------------------
  // Reading the board

  /** One character of a row line in `_parse_tabuleiro`, with the running column `c`:
      `#` is skipped, a piece or a blank takes the next column (stored, a blank as
      `'-'`, when that column is a cell), anything else is skipped. */
  function LerCaractere(tab: Tabuleiro, l: int, c: int, ch: char): (Tabuleiro, int)
  {
    if ch == '#' then (tab, c)
    else if ch == 'o' || ch == 'c' || ch == '-' || ch == ' ' then
      var tab' := if Pos(l, c) in ADJACENCIAS then tab[Pos(l, c) := if ch == ' ' then '-' else ch] else tab;
      (tab', c + 1)
    else (tab, c)
  }

  /** The inner loop over the characters of `linha` (row `l`), from column 1. */
  function LerLinha(tab: Tabuleiro, l: int, linha: string): (Tabuleiro, int)
  {
    if linha == [] then (tab, 1)
    else
      var prev := LerLinha(tab, l, linha[..|linha| - 1]);
      LerCaractere(prev.0, l, prev.1, linha[|linha| - 1])
  }

  /** The outer loop over the first `n` lines; line 0 and lines from 8 on are skipped,
      line `i` is row `i`. */
  function LerLinhas(linhas: seq<string>, n: int): Tabuleiro
    requires n <= |linhas|
  {
    if n <= 0 then map[]
    else
      var tab := LerLinhas(linhas, n - 1);
      if n - 1 == 0 || n - 1 >= 8 then tab else LerLinha(tab, n - 1, linhas[n - 1]).0
  }

  /** `_parse_tabuleiro`. */
  function LerTabuleiro(s: string): Tabuleiro
  {
    var linhas := Split(Strip(s), '\n');
    LerLinhas(linhas, |linhas|)
  }

  // ---------------------------------------------------------------------------
  // Writing a move

  /** `f"{l} {c}"` for each cell of `ps`, as separate words. */
  function Coordenadas(ps: seq<Pos>): (ws: seq<string>)
    ensures |ws| == 2 * |ps|
    ensures forall k :: 0 <= k < |ps| ==> ws[2 * k] == IntToString(ps[k].l) && ws[2 * k + 1] == IntToString(ps[k].c)
  {
    if ps == [] then [] else [IntToString(ps[0].l), IntToString(ps[0].c)] + Coordenadas(ps[1..])
  }

  /** `movimento_para_string(lado, movimento)`. A step must have exactly two cells
      (the source unpacks them). */
  function MovimentoParaString(lado: char, m: Movimento): string
    requires m.tipo == 'm' ==> |m.posicoes| == 2
  {
    var ps := m.posicoes;
    if m.tipo == 'm' then
      [lado] + " m " + IntToString(ps[0].l) + " " + IntToString(ps[0].c)
      + " " + IntToString(ps[1].l) + " " + IntToString(ps[1].c)
    else if m.tipo == 's' then
      [lado] + " s " + IntToString(|ps| - 1) + " " + Unwords(Coordenadas(ps))
    else [lado] + " n"
  }

  /** The words of a written move: the side, the type, then for a step the four
      coordinates and for a chain the hop count and every coordinate. */
  function PalavrasMovimento(lado: char, m: Movimento): seq<string>
    requires m.tipo == 'm' ==> |m.posicoes| == 2
  {
    if m.tipo == 'm' then [[lado], "m"] + Coordenadas(m.posicoes)
    else if m.tipo == 's' then [[lado], "s", IntToString(|m.posicoes| - 1)] + Coordenadas(m.posicoes)
    else [[lado], "n"]
  }

  lemma CoordenadasSaoPalavras(ps: seq<Pos>)
    ensures forall j :: 0 <= j < |Coordenadas(ps)| ==> Token(Coordenadas(ps)[j])
  {
    var cs := Coordenadas(ps);
    forall j | 0 <= j < |cs| ensures Token(cs[j]) {
      IntToStringRoundTrip(ps[j / 2].l);
      IntToStringRoundTrip(ps[j / 2].c);
      assert j == 2 * (j / 2) || j == 2 * (j / 2) + 1;
    }
  }

  /** A written move is its words joined by single spaces, and each of them is a
      word `split()` keeps whole. */
  lemma MovimentoEmPalavras(lado: char, m: Movimento)
    requires !IsSpace(lado)
    requires m.tipo == 'm' ==> |m.posicoes| == 2
    requires m.tipo == 's' ==> |m.posicoes| >= 1
    ensures forall k :: 0 <= k < |PalavrasMovimento(lado, m)| ==> Token(PalavrasMovimento(lado, m)[k])
    ensures MovimentoParaString(lado, m) == Unwords(PalavrasMovimento(lado, m))
  {
    PalavrasSaoTokens(lado, m);
    if m.tipo == 'm' {
      PassoEmPalavras(lado, m);
    } else if m.tipo == 's' {
      CadeiaEmPalavras(lado, m);
    }
  }

  lemma PalavrasSaoTokens(lado: char, m: Movimento)
    requires !IsSpace(lado)
    requires m.tipo == 'm' ==> |m.posicoes| == 2
    requires m.tipo == 's' ==> |m.posicoes| >= 1
    ensures forall k :: 0 <= k < |PalavrasMovimento(lado, m)| ==> Token(PalavrasMovimento(lado, m)[k])
  {
    CoordenadasSaoPalavras(m.posicoes);
    if m.tipo == 's' {
      IntToStringRoundTrip(|m.posicoes| - 1);
    }
  }

  lemma PassoEmPalavras(lado: char, m: Movimento)
    requires m.tipo == 'm' && |m.posicoes| == 2
    ensures MovimentoParaString(lado, m) == Unwords(PalavrasMovimento(lado, m))
  {
    var ps := m.posicoes;
    var a, b, c, d := IntToString(ps[0].l), IntToString(ps[0].c), IntToString(ps[1].l), IntToString(ps[1].c);
    assert Coordenadas(ps) == [a, b, c, d];
    assert PalavrasMovimento(lado, m) == [[lado], "m", a, b, c, d];
    UnwordsDoPasso(lado, a, b, c, d);
  }

  lemma CadeiaEmPalavras(lado: char, m: Movimento)
    requires m.tipo == 's' && |m.posicoes| >= 1
    ensures MovimentoParaString(lado, m) == Unwords(PalavrasMovimento(lado, m))
  {
    var ps := m.posicoes;
    var cs := Coordenadas(ps);
    var k := IntToString(|ps| - 1);
    var ws := [[lado], "s", k] + cs;
    assert ws[1..] == ["s"] + ws[2..] && ws[2..] == [k] + cs;
    UnwordsFront([lado], ws[1..]);
    UnwordsFront("s", ws[2..]);
    UnwordsFront(k, cs);
    assert [lado] + " " + ("s" + " " + (k + " " + Unwords(cs)))
        == [lado] + " s " + k + " " + Unwords(cs);
  }

  /** Splitting a written move gives back its words. */
  lemma MovimentoPalavras(lado: char, m: Movimento)
    requires !IsSpace(lado)
    requires m.tipo == 'm' ==> |m.posicoes| == 2
    requires m.tipo == 's' ==> |m.posicoes| >= 1
    ensures Words(MovimentoParaString(lado, m)) == PalavrasMovimento(lado, m)
    ensures Strip(MovimentoParaString(lado, m)) == MovimentoParaString(lado, m)
  {
    MovimentoEmPalavras(lado, m);
    WordsOfUnwords(PalavrasMovimento(lado, m));
    StripUnwords(PalavrasMovimento(lado, m));
  }

  lemma UnwordsDoPasso(lado: char, a: string, b: string, c: string, d: string)
    ensures Unwords([[lado], "m", a, b, c, d]) == [lado] + " m " + a + " " + b + " " + c + " " + d
  {
    var ws := [[lado], "m", a, b, c, d];
    assert ws[1..] == ["m"] + ws[2..] && ws[2..] == [a] + ws[3..] && ws[3..] == [b] + ws[4..];
    assert ws[4..] == [c] + ws[5..] && ws[5..] == [d];
    UnwordsFront([lado], ws[1..]);
    UnwordsFront("m", ws[2..]);
    UnwordsFront(a, ws[3..]);
    UnwordsFront(b, ws[4..]);
    UnwordsFront(c, ws[5..]);
    assert [lado] + " " + ("m" + " " + (a + " " + (b + " " + (c + " " + d))))
        == [lado] + " m " + a + " " + b + " " + c + " " + d;
  }

  lemma UnwordsFront(w: string, rest: seq<string>)
    requires rest != []
    ensures Unwords([w] + rest) == w + " " + Unwords(rest)
  {
    assert ([w] + rest)[1..] == rest;
  }

  // ---------------------------------------------------------------------------
  // The board text round trip

  /** A board as the program keeps it: exactly the 31 cells, each holding a piece or
      `'-'`. */
  predicate TabuleiroCompleto(t: Tabuleiro)
  {
    && t.Keys == ADJACENCIAS.Keys
    && forall p :: p in t ==> t[p] == 'o' || t[p] == 'c' || t[p] == '-'
  }

  /** The cells of row `l` from column 1 up to, not including, column `n`. */
  predicate NaFaixa(p: Pos, l: int, n: int)
  {
    p.l == l && 1 <= p.c < n && p in ADJACENCIAS
  }

  /** `acc` with the cells of row `l` before column `n` copied from `t`. */
  function Preenche(acc: Tabuleiro, t: Tabuleiro, l: int, n: int): Tabuleiro
    requires TabuleiroCompleto(t)
  {
    if n <= 1 then acc
    else
      var m := Preenche(acc, t, l, n - 1);
      if Pos(l, n - 1) in ADJACENCIAS then m[Pos(l, n - 1) := t[Pos(l, n - 1)]] else m
  }

  lemma {:induction false} PreencheSpec(acc: Tabuleiro, t: Tabuleiro, l: int, n: int)
    requires TabuleiroCompleto(t)
    ensures var r := Preenche(acc, t, l, n);
      && (forall p :: p in r <==> p in acc || NaFaixa(p, l, n))
      && (forall p :: p in r ==> r[p] == if NaFaixa(p, l, n) then t[p] else acc[p])
    decreases n
  {
    if n > 1 {
      PreencheSpec(acc, t, l, n - 1);
    }
  }

  /** Reading `#` and the first `n - 1` written columns of row `l` copies exactly the
      cells among them and leaves the column counter at `n`. */
  lemma {:induction false} LerCelulas(acc: Tabuleiro, t: Tabuleiro, l: int, n: int)
    requires TabuleiroCompleto(t)
    requires 1 <= n
    ensures LerLinha(acc, l, "#" + CelulasAte(t, l, n)) == (Preenche(acc, t, l, n), n)
    decreases n
  {
    if n == 1 {
      assert "#" + CelulasAte(t, l, n) == "#";
      assert "#"[..0] == [];
    } else {
      var antes := "#" + CelulasAte(t, l, n - 1);
      assert antes + [Celula(t, l, n - 1)] == "#" + CelulasAte(t, l, n);
      LerCelulas(acc, t, l, n - 1);
      LerMaisUmaCelula(acc, t, l, n, antes);
    }
  }

  /** One more column read after the first `n - 2` extends the copied cells by one. */
  lemma LerMaisUmaCelula(acc: Tabuleiro, t: Tabuleiro, l: int, n: int, antes: string)
    requires TabuleiroCompleto(t)
    requires 2 <= n
    requires LerLinha(acc, l, antes) == (Preenche(acc, t, l, n - 1), n - 1)
    ensures LerLinha(acc, l, antes + [Celula(t, l, n - 1)]) == (Preenche(acc, t, l, n), n)
  {
    LerLinhaMais(acc, l, antes, Celula(t, l, n - 1));
    LerCelula(Preenche(acc, t, l, n - 1), t, l, n - 1);
  }

  /** The inner loop reads one more character after the ones before it. */
  lemma LerLinhaMais(tab: Tabuleiro, l: int, linha: string, ch: char)
    ensures LerLinha(tab, l, linha + [ch]) ==
      LerCaractere(LerLinha(tab, l, linha).0, l, LerLinha(tab, l, linha).1, ch)
  {
    assert (linha + [ch])[..|linha|] == linha;
  }

  /** Reading the character written for column `c` copies that cell when it is one,
      and moves to the next column either way. */
  lemma LerCelula(m: Tabuleiro, t: Tabuleiro, l: int, c: int)
    requires TabuleiroCompleto(t)
    ensures LerCaractere(m, l, c, Celula(t, l, c)) ==
      (if Pos(l, c) in ADJACENCIAS then m[Pos(l, c) := t[Pos(l, c)]] else m, c + 1)
  {
  }

  /** Reading a whole written row: the five columns copied, the border ignored. */
  lemma LerLinhaTexto(acc: Tabuleiro, t: Tabuleiro, l: int)
    requires TabuleiroCompleto(t)
    ensures LerLinha(acc, l, LinhaTexto(t, l)).0 == Preenche(acc, t, l, 6)
  {
    LerCelulas(acc, t, l, 6);
    var linha := LinhaTexto(t, l);
    assert linha[..|linha| - 1] == "#" + CelulasAte(t, l, 6);
  }

  /** The rows `1 .. n - 1` of `t`, filled in order. */
  function PreencheLinhas(t: Tabuleiro, n: int): Tabuleiro
    requires TabuleiroCompleto(t)
  {
    if n <= 1 then map[] else Preenche(PreencheLinhas(t, n - 1), t, n - 1, 6)
  }

  lemma {:induction false} PreencheLinhasSpec(t: Tabuleiro, n: int)
    requires TabuleiroCompleto(t)
    ensures var r := PreencheLinhas(t, n);
      && (forall p :: p in r <==> p in ADJACENCIAS && p.l < n)
      && (forall p :: p in r ==> r[p] == t[p])
    decreases n
  {
    forall p | p in ADJACENCIAS
      ensures 1 <= p.l && 1 <= p.c <= 5
    {
      FormaDasCelulas(p);
    }
    if n > 1 {
      PreencheLinhasSpec(t, n - 1);
      PreencheSpec(PreencheLinhas(t, n - 1), t, n - 1, 6);
    }
  }

  /** The rows `LerLinhas` has read from the written lines, before line `n`. */
  lemma {:induction false} LerLinhasTexto(t: Tabuleiro, n: int)
    requires TabuleiroCompleto(t)
    requires 1 <= n <= 8
    ensures LerLinhas(LinhasAte(t, 8) + [BORDA], n) == PreencheLinhas(t, n)
    decreases n
  {
    var linhas := LinhasAte(t, 8) + [BORDA];
    if n > 1 {
      LerLinhasTexto(t, n - 1);
      assert linhas[n - 1] == LinhaTexto(t, n - 1);
      LerLinhaTexto(PreencheLinhas(t, n - 1), t, n - 1);
    } else {
      assert LerLinhas(linhas, 0) == map[];
    }
  }

  lemma {:induction false} JoinTamanho(ls: seq<string>, w: nat)
    requires |ls| >= 1
    requires forall k :: 0 <= k < |ls| ==> |ls[k]| == w
    ensures |Join(ls, '\n')| == |ls| * (w + 1) - 1
    decreases |ls|
  {
    if |ls| > 1 {
      JoinTamanho(ls[1..], w);
      assert |ls| * (w + 1) == (|ls| - 1) * (w + 1) + (w + 1);
    }
  }

  /** Joining lines that all have `w` characters: line `i` occupies positions
      `(w + 1) * i` onwards and a newline follows every line but the last. */
  lemma {:induction false} JoinPosicoes(ls: seq<string>, w: nat, i: int, j: int)
    requires forall k :: 0 <= k < |ls| ==> |ls[k]| == w
    requires 0 <= i < |ls| && 0 <= j <= w
    requires j == w ==> i < |ls| - 1
    ensures (w + 1) * i + j < |Join(ls, '\n')|
    ensures Join(ls, '\n')[(w + 1) * i + j] == if j < w then ls[i][j] else '\n'
    decreases |ls|
  {
    JoinTamanho(ls, w);
    if |ls| > 1 && i > 0 {
      JoinPosicoes(ls[1..], w, i - 1, j);
      assert (w + 1) * i + j == (w + 1) + ((w + 1) * (i - 1) + j);
    }
  }

  /** A written row: seven characters, `#` at both ends, no newline. */
  lemma LinhaTextoForma(t: Tabuleiro, l: int)
    requires TabuleiroCompleto(t)
    ensures |LinhaTexto(t, l)| == 7
    ensures LinhaTexto(t, l)[0] == '#' && LinhaTexto(t, l)[6] == '#'
    ensures '\n' !in LinhaTexto(t, l)
  {
    var linha := LinhaTexto(t, l);
    forall i | 0 <= i < 7 ensures linha[i] != '\n' {
      if 1 <= i < 6 {
        assert linha[i] == Celula(t, l, i);
      }
    }
  }

  /** `para_string` writes 72 characters, and the cell in row `l`, column `c` sits at
      position `8 * l + c`, the index the referee's `POS` computes. */
  lemma TextoNaPosicao(t: Tabuleiro, l: int, c: int)
    requires 0 <= l <= 8 && 0 <= c <= 7
    ensures |TextoTabuleiro(t)| == 72
    ensures TextoTabuleiro(t)[8 * l + c] ==
      if c == 7 then '\n'
      else if l == 0 || l == 8 || c == 0 || c == 6 then '#'
      else Celula(t, l, c)
  {
    var ls := LinhasAte(t, 8) + [BORDA];
    forall k | 0 <= k < |ls| ensures |ls[k]| == 7 {
      if 1 <= k < 8 {
        assert ls[k] == LinhaTexto(t, k);
      }
    }
    JoinTamanho(ls, 7);
    if l < 8 || c < 7 {
      JoinPosicoes(ls, 7, l, c);
      if 1 <= l < 8 {
        assert ls[l] == LinhaTexto(t, l);
        assert 1 <= c < 6 ==> LinhaTexto(t, l)[c] == CelulasAte(t, l, 6)[c - 1];
      }
    }
  }

  lemma {:induction false} JoinSemSeparador(ls: seq<string>, sep: char, ch: char)
    requires |ls| >= 1
    requires ch != sep
    requires forall k :: 0 <= k < |ls| ==> |ls[k]| > 0 && ls[k][0] == ch
    ensures Join(ls, sep)[0] == ch
  {
  }

  lemma {:induction false} JoinUltimo(ls: seq<string>, sep: char)
    requires |ls| >= 1 && |ls[|ls| - 1]| > 0
    ensures |Join(ls, sep)| > 0
    ensures Join(ls, sep)[|Join(ls, sep)| - 1] == ls[|ls| - 1][|ls[|ls| - 1]| - 1]
    decreases |ls|
  {
    if |ls| > 1 {
      JoinUltimo(ls[1..], sep);
    }
  }

  lemma StripNovaLinha(corpo: string)
    requires |corpo| > 0 && !IsSpace(corpo[0]) && !IsSpace(corpo[|corpo| - 1])
    ensures Strip(corpo + "\n") == corpo
  {
    var s := corpo + "\n";
    assert s[0] == corpo[0];
    assert StripLeft(s) == s;
    assert s[|s| - 1] == '\n' && IsSpace('\n');
    assert s[..|s| - 1] == corpo;
    assert StripRight(s) == StripRight(corpo);
    assert StripRight(corpo) == corpo;
  }

  /** `strip` removes only the final newline of the written board. */
  lemma StripTexto(t: Tabuleiro)
    requires TabuleiroCompleto(t)
    ensures Strip(TextoTabuleiro(t)) == Join(LinhasAte(t, 8) + [BORDA], '\n')
  {
    var ls := LinhasAte(t, 8) + [BORDA];
    var corpo := Join(ls, '\n');
    TextoNaPosicao(t, 0, 0);
    TextoNaPosicao(t, 8, 6);
    JoinTamanho(ls, 7);
    assert TextoTabuleiro(t) == corpo + "\n";
    assert corpo[0] == TextoTabuleiro(t)[0];
    assert corpo[|corpo| - 1] == TextoTabuleiro(t)[70];
    StripNovaLinha(corpo);
  }

  /** Splitting the stripped text at newlines gives the nine written lines. */
  lemma LinhasDoTexto(t: Tabuleiro)
    requires TabuleiroCompleto(t)
    ensures Split(Strip(TextoTabuleiro(t)), '\n') == LinhasAte(t, 8) + [BORDA]
  {
    var ls := LinhasAte(t, 8) + [BORDA];
    forall k | 0 <= k < |ls| ensures '\n' !in ls[k] {
      if 1 <= k < 8 {
        assert ls[k] == LinhaTexto(t, k);
        LinhaTextoForma(t, k);
      }
    }
    StripTexto(t);
    SplitOfJoin(ls, '\n');
  }

  /** Writing a board and reading the text back gives the same board. */
  lemma LerTextoTabuleiro(t: Tabuleiro)
    requires TabuleiroCompleto(t)
    ensures LerTabuleiro(TextoTabuleiro(t)) == t
  {
    var ls := LinhasAte(t, 8) + [BORDA];
    LinhasDoTexto(t);
    assert LerLinhas(ls, 9) == LerLinhas(ls, 8);
    LerLinhasTexto(t, 8);
    PreencheLinhasSpec(t, 8);
    var r := PreencheLinhas(t, 8);
    forall p | p in ADJACENCIAS ensures p.l < 8 {
      FormaDasCelulas(p);
    }
    assert r.Keys == t.Keys;
  }
}
