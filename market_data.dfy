/** The universe row shape that every market-data collector produces
    (src/ai_investor/collectors/market_data.py). */
module MarketData {

  /** One listed stock in the screening universe. */
  datatype UniverseRow = UniverseRow(ticker: string, companyName: string, sector: string)
}
