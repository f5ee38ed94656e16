/** The enumerations shared by the orchestrator and the node client. */
module Types {
  datatype NodeTier = Nano | Edge | Pro | Cluster

  datatype AgentRole = Planner | Researcher | Coder | Critic | Summarizer | Aggregator | ApiRelay

  datatype JobTier = Standard | Paid | Premium

  datatype SubTaskStatus = Pending | Dispatched | Running | Complete | Failed {
    predicate InFlight() {
      Dispatched? || Running?
    }
  }
}
