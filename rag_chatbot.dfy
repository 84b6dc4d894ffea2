/**
 * The answer dispatch of the chatbot: a question goes to the FAQ matcher
 * first, and only when that finds nothing to the retrieval-augmented
 * chain over the knowledge base.  Every exception is turned into an
 * error reply.  The chain (retriever, prompt and language model) is an
 * oracle from the query to its response dictionary.
 */
module Chatbot {
  import opened Outcomes
  import opened PyText
  import opened Faq

  /** The prefix of every error reply. */
  const ErrorPrefix: string := "Lỗi khi truy vấn RAG: "

  /** The key of the chain's response that holds the generated answer. */
  const ResultKey: string := "result"

  /** A response of the chain, as a dictionary of strings. */
  type ChainResponse = map<string, string>

  /** `str(KeyError(key))`: the key in single quotes. */
  function KeyErrorText(key: string): string
  {
    "'" + key + "'"
  }

  /** The error reply for an exception. */
  function ErrorReply(e: Exception): string
  {
    ErrorPrefix + e.text
  }

  /**
   * The reply of `get_answer(question)` once the FAQ check has given
   * `faqResult`: a FAQ hit's answer, else the chain's stripped `result`,
   * else an error reply.
   */
  function Reply(faqResult: Result<Option<Hit>>, chain: string -> Result<ChainResponse>,
                 question: string): string
  {
    match faqResult
    case Err(e) => ErrorReply(e)
    case Ok(Some(hit)) => hit.answer
    case Ok(None) =>
      match chain(question)
      case Err(e) => ErrorReply(e)
      case Ok(response) =>
        if ResultKey in response then Strip(response[ResultKey])
        else ErrorReply(Exception(KeyErrorText(ResultKey)))
  }

  /** A FAQ hit is the reply whatever the chain would have said: the chain is not consulted. */
  lemma FaqHitAnswers(hit: Hit, chain1: string -> Result<ChainResponse>,
                      chain2: string -> Result<ChainResponse>, question: string)
    ensures Reply(Ok(Some(hit)), chain1, question) == hit.answer
    ensures Reply(Ok(Some(hit)), chain1, question) == Reply(Ok(Some(hit)), chain2, question)
  {
  }

  /**
   * An exception from the FAQ check is the error reply, and the chain is
   * not consulted.
   */
  lemma FaqErrorAnswers(e: Exception, chain1: string -> Result<ChainResponse>,
                        chain2: string -> Result<ChainResponse>, question: string)
    ensures Reply(Err(e), chain1, question) == ErrorReply(e)
    ensures Reply(Err(e), chain1, question) == Reply(Err(e), chain2, question)
  {
  }

  /**
   * A question that reaches the embedder, when embedding it raises, is
   * answered with that exception's error reply, whatever the chain would
   * have said.
   */
  lemma EmbedFailureAnswers(faq: FaqService, chain: string -> Result<ChainResponse>,
                            question: string, e: Exception)
    requires faq.faqData != [] && faq.faqVectors != []
    requires |Split(question)| <= MaxQuestionWords
    requires faq.embed(Normalize(question)) == Err(e)
    ensures Reply(Match(faq.faqData, faq.faqVectors, question, faq.embed, faq.norm), chain, question)
            == ErrorReply(e)
  {
    MatchShort(faq.faqData, faq.faqVectors, question, faq.embed, faq.norm);
  }

  /**
   * Without a FAQ hit the reply is the chain's answer with surrounding
   * white space removed, or an error reply naming the chain's exception
   * or the missing `result` key.
   */
  lemma ChainAnswers(chain: string -> Result<ChainResponse>, question: string)
    ensures var reply := Reply(Ok(None), chain, question);
            && (chain(question).Err? ==> reply == ErrorReply(chain(question).error))
            && (chain(question).Ok? && ResultKey !in chain(question).value ==> reply == ErrorPrefix + "'result'")
            && (chain(question).Ok? && ResultKey in chain(question).value ==>
                  && reply == Strip(chain(question).value[ResultKey])
                  && (reply == [] || (!IsSpace(reply[0]) && !IsSpace(reply[|reply| - 1]))))
  {
  }

  /**
   * A question of more than twelve words never gets a FAQ answer: its
   * reply is decided by the chain alone.
   */
  lemma LongQuestionGoesToChain(faq: FaqService, chain: string -> Result<ChainResponse>, question: string)
    requires |Split(question)| > MaxQuestionWords
    ensures Reply(Match(faq.faqData, faq.faqVectors, question, faq.embed, faq.norm), chain, question)
            == Reply(Ok(None), chain, question)
  {
    MatchRejectsLong(faq.faqData, faq.faqVectors, question, faq.embed, faq.norm);
  }

  /** The chatbot: the FAQ matcher and the retrieval chain over the knowledge base. */
  class RagChatbot {
    const faq: FaqService
    const chain: string -> Result<ChainResponse>

    constructor (faq: FaqService, chain: string -> Result<ChainResponse>)
      ensures this.faq == faq && this.chain == chain
    {
      this.faq := faq;
      this.chain := chain;
    }

    /** `get_answer(question)` */
    method GetAnswer(question: string) returns (reply: string)
      ensures reply == Reply(Match(faq.faqData, faq.faqVectors, question, faq.embed, faq.norm), chain, question)
    {
      var faqResult := faq.Check(question);
      if faqResult.Err? {
        return ErrorReply(faqResult.error);
      }
      if faqResult.value.Some? {
        return faqResult.value.value.answer;
      }
      var response := chain(question);
      if response.Err? {
        return ErrorReply(response.error);
      }
      if ResultKey !in response.value {
        return ErrorReply(Exception(KeyErrorText(ResultKey)));
      }
      return Strip(response.value[ResultKey]);
    }
  }
}
