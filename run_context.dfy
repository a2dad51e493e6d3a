/** The agents' shared run context, reduced to the two counters the tools read and update. */
module RunContext {

  class AgentContext {
    /** How many first responders can still be dispatched. */
    var availableResponders: int
    /** The news feed's cursor into the news table. */
    var iNews: int

    constructor (availableResponders: int, iNews: int)
      ensures this.availableResponders == availableResponders && this.iNews == iNews
    {
      this.availableResponders := availableResponders;
      this.iNews := iNews;
    }
  }
}
