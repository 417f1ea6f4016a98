/** The simulated knowledge base: an ordered list of reference statements per
    domain, and the engine's lookup that falls back to the "general" domain. */
module Corpus {

  const DefaultDomain: string := "general"

  const GeneralCorpus: seq<string> := [
    "The Earth orbits around the Sun in approximately 365.25 days.",
    "Photosynthesis is the process by which plants convert sunlight into energy.",
    "The speed of light in vacuum is approximately 299,792,458 meters per second.",
    "DNA contains the genetic instructions for the development of living organisms.",
    "The capital of France is Paris, which is located in the northern part of the country.",
    "Water boils at 100 degrees Celsius at sea level under standard atmospheric pressure.",
    "The human body has 206 bones in adults.",
    "The Internet was initially developed as ARPANET in the 1960s by the US Department of Defense.",
    "Shakespeare wrote approximately 37 plays during his lifetime.",
    "The Pacific Ocean is the largest ocean on Earth, covering about 165 million square kilometers."
  ]

  const FinanceCorpus: seq<string> := [
    "Compound interest is calculated on the initial principal and accumulated interest from previous periods.",
    "The stock market operates through exchanges where buyers and sellers trade shares of publicly held companies.",
    "Diversification is a risk management strategy that mixes different investments within a portfolio.",
    "The Federal Reserve is the central banking system of the United States, established in 1913.",
    "A credit score typically ranges from 300 to 850, with higher scores indicating better creditworthiness.",
    "Market capitalization is calculated by multiplying a company's share price by its total number of outstanding shares.",
    "Treasury bonds are debt securities issued by the US Department of Treasury.",
    "The S&P 500 is a stock market index tracking the performance of 500 large companies listed on US exchanges.",
    "Inflation represents the rate at which the general level of prices for goods and services rises.",
    "A recession is typically defined as two consecutive quarters of negative GDP growth."
  ]

  const HealthCorpus: seq<string> := [
    "The human heart pumps approximately 5 liters of blood per minute at rest.",
    "Regular exercise can reduce the risk of chronic diseases including heart disease and diabetes.",
    "The recommended daily water intake varies by individual but is often cited as about 8 glasses per day.",
    "Vitamin D is produced by the body when skin is exposed to sunlight.",
    "The immune system protects the body against infectious diseases and foreign invaders.",
    "Sleep is essential for cognitive function, with most adults requiring 7-9 hours per night.",
    "Vaccines work by training the immune system to recognize and combat specific pathogens.",
    "The human brain contains approximately 86 billion neurons.",
    "Regular hand washing is one of the most effective ways to prevent the spread of infectious diseases.",
    "Mental health is as important as physical health and requires proper attention and care."
  ]

  /** `KNOWLEDGE_BASE`: domain name to its reference statements. */
  const KnowledgeBase: map<string, seq<string>> :=
    map["general" := GeneralCorpus, "finance" := FinanceCorpus, "health" := HealthCorpus]

  /** `KNOWLEDGE_BASE.get(domain, KNOWLEDGE_BASE["general"])`. */
  function CorpusFor(domain: string): (r: seq<string>)
    ensures r == GeneralCorpus || r == FinanceCorpus || r == HealthCorpus
    ensures domain != "finance" && domain != "health" ==> r == GeneralCorpus
  {
    if domain in KnowledgeBase then KnowledgeBase[domain] else KnowledgeBase[DefaultDomain]
  }

  /** The three domains are the only ones; any other name reads the general corpus,
      and every corpus holds ten statements. */
  lemma CorpusLookup(domain: string)
    ensures domain !in {"general", "finance", "health"} ==> CorpusFor(domain) == GeneralCorpus
    ensures domain == "finance" ==> CorpusFor(domain) == FinanceCorpus
    ensures domain == "health" ==> CorpusFor(domain) == HealthCorpus
    ensures |CorpusFor(domain)| == 10
  {
  }
}
