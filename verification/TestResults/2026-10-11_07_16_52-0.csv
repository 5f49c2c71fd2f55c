TestResult.DisplayName,TestResult.Outcome,TestResult.Duration,TestResult.ResourceCount,RandomSeed
GtfsGraphs.GtfsGraph.LoadTlRoute (correctness),Passed,00:00:02.5209082,1945203,3
GtfsGraphs.GtfsGraph.LoadTlRoutes (correctness),Passed,00:00:01.2096855,1034205,3
GtfsGraphs.GtfsGraph.LoadTlRoute (well-formedness),Passed,00:00:00.9982883,234763,3
GtfsGraphs.GtfsGraph.LoadTlRoutes (well-formedness),Passed,00:00:00.3076796,136448,3
