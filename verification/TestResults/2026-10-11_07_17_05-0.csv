TestResult.DisplayName,TestResult.Outcome,TestResult.Duration,TestResult.ResourceCount,RandomSeed
GtfsGraphs.GtfsGraph.LoadTlRoute (correctness),Passed,00:00:02.7147679,1777052,4
GtfsGraphs.GtfsGraph.LoadTlRoutes (correctness),Passed,00:00:01.8692064,1134975,4
GtfsGraphs.GtfsGraph.LoadTlRoute (well-formedness),Passed,00:00:00.8330007,234121,4
GtfsGraphs.GtfsGraph.LoadTlRoutes (well-formedness),Passed,00:00:00.2432347,136507,4
