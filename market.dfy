/** The shapes of the market data of types/market.ts that the modelled code reads. */
module Market {

  /** One scheduled payment of a bond (`FlowDetail`). */
  datatype FlowDetail = FlowDetail(fecha: string, monto: real, renta: real, amortizacion: real, residual: real)

  /** A bond or note with its maturity date `vencimiento` in "DD/MM/YYYY" form (`FlowInstrument`). */
  datatype FlowInstrument = FlowInstrument(
    ticker: string,
    descripcion: string,
    vencimiento: string,
    tasa: string,
    moneda: string,
    minimo: string,
    ley: string,
    calificacion: string,
    flujos: seq<FlowDetail>)

  /** One observation of an indicator series (`InflationData`, also used for country risk). */
  datatype InflationData = InflationData(fecha: string, valor: real)
}
