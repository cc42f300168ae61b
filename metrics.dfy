/** The metrics record of the concurrent pool: three counters and two
    nanosecond accumulators, updated in place. */
module Metrics {

  class MemoryMetrics {
    var Allocations: int
    var Reutilizacoes: int
    var BlocosAtivos: int
    /** Nanoseconds spent in allocations. */
    var TempoDeAlocacao: int
    /** Nanoseconds spent in reuses. */
    var TempoDeReutilizacao: int

    /** Active blocks are the allocations not yet matched by a reuse. */
    ghost predicate Consistent()
      reads this
    {
      BlocosAtivos == Allocations - Reutilizacoes
    }

    /** `NovaMemoryMetrics()`: every field starts at zero. */
    constructor ()
      ensures Allocations == 0 && Reutilizacoes == 0 && BlocosAtivos == 0
      ensures TempoDeAlocacao == 0 && TempoDeReutilizacao == 0
      ensures Consistent()
    {
      Allocations, Reutilizacoes, BlocosAtivos := 0, 0, 0;
      TempoDeAlocacao, TempoDeReutilizacao := 0, 0;
    }

    /** One more allocation and one more active block; nothing else moves. */
    method RegistrarAlocacao()
      modifies this
      ensures Allocations == old(Allocations) + 1
      ensures BlocosAtivos == old(BlocosAtivos) + 1
      ensures Reutilizacoes == old(Reutilizacoes)
      ensures TempoDeAlocacao == old(TempoDeAlocacao)
      ensures TempoDeReutilizacao == old(TempoDeReutilizacao)
      ensures old(Consistent()) ==> Consistent()
    {
      Allocations := Allocations + 1;
      BlocosAtivos := BlocosAtivos + 1;
    }

    /** One more reuse and one active block fewer; nothing else moves. */
    method RegistrarReutilizacao()
      modifies this
      ensures Reutilizacoes == old(Reutilizacoes) + 1
      ensures BlocosAtivos == old(BlocosAtivos) - 1
      ensures Allocations == old(Allocations)
      ensures TempoDeAlocacao == old(TempoDeAlocacao)
      ensures TempoDeReutilizacao == old(TempoDeReutilizacao)
      ensures old(Consistent()) ==> Consistent()
    {
      Reutilizacoes := Reutilizacoes + 1;
      BlocosAtivos := BlocosAtivos - 1;
    }

    /** Adds `duration` nanoseconds to the allocation time only. */
    method AdicionarTempoDeAlocacao(duration: int)
      modifies this
      ensures TempoDeAlocacao == old(TempoDeAlocacao) + duration
      ensures Allocations == old(Allocations) && Reutilizacoes == old(Reutilizacoes)
      ensures BlocosAtivos == old(BlocosAtivos)
      ensures TempoDeReutilizacao == old(TempoDeReutilizacao)
    {
      TempoDeAlocacao := TempoDeAlocacao + duration;
    }

    /** Adds `duration` nanoseconds to the reuse time only. */
    method AdicionarTempoDeReutilizacao(duration: int)
      modifies this
      ensures TempoDeReutilizacao == old(TempoDeReutilizacao) + duration
      ensures Allocations == old(Allocations) && Reutilizacoes == old(Reutilizacoes)
      ensures BlocosAtivos == old(BlocosAtivos)
      ensures TempoDeAlocacao == old(TempoDeAlocacao)
    {
      TempoDeReutilizacao := TempoDeReutilizacao + duration;
    }

    /** `ObterMetricas()`: the five stored values, read without changing any. */
    method ObterMetricas() returns (allocations: int, reutilizacoes: int, blocosAtivos: int,
                                    tempoDeAlocacao: int, tempoDeReutilizacao: int)
      ensures allocations == Allocations && reutilizacoes == Reutilizacoes
      ensures blocosAtivos == BlocosAtivos
      ensures tempoDeAlocacao == TempoDeAlocacao && tempoDeReutilizacao == TempoDeReutilizacao
      ensures Consistent() ==> blocosAtivos == allocations - reutilizacoes
    {
      allocations, reutilizacoes, blocosAtivos := Allocations, Reutilizacoes, BlocosAtivos;
      tempoDeAlocacao, tempoDeReutilizacao := TempoDeAlocacao, TempoDeReutilizacao;
    }
  }
}
